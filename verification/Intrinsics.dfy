/**
 The stateful `ta.*` builtins and the state they keep per call site
 (indicator-engine/src/intrinsic.rs). The work budget is not modelled.
 */
module Intrinsics {
  import opened Basics
  import opened Values
  import opened Collections
  import opened NumericOrder
  import opened Windows
  import Rsi

  type CallSiteId = nat

  // Which builtin a rolling window belongs to.
  datatype Owner = Sma | Window(maximum: bool) | Pivot(maximum: bool) | Stdev | Dev

  datatype IntrinsicState =
    | Rolling(owner: Owner, values: seq<Sample>)
    | ExtremeBars(maximum: bool, bars: seq<Option<Bar>>)
    | RsiState(rsi: Rsi.State)

  type States = map<CallSiteId, IntrinsicState>

  function AsFloat(v: Value): Sample {
    match v
    case Float(Finite(r)) => Some(r)
    case Int(i) => Some(i as real)
    case _ => None
  }

  // `value as i64` saturates.
  function AsInt(v: Value): Option<int> {
    match v
    case Int(i) => Some(i)
    case Float(Finite(r)) => Some(Max(I64_MIN, Min(I64_MAX, Truncate(r))))
    case _ => None
  }

  function Source(args: seq<Value>): Sample {
    if args == [] then None else AsFloat(args[0])
  }

  function FloatValue(x: Sample): Value {
    match x
    case Some(r) => Float(Finite(r))
    case None => Na
  }

  function WindowLength(maxWindowLength: nat, args: seq<Value>, index: nat): (r: Result<nat, IntrinsicError>)
    ensures r.Ok? ==> 0 < r.value <= maxWindowLength
  {
    if index >= |args| || AsInt(args[index]) == None then
      Err(InvalidArguments("window length must be an integer"))
    else
      var length := AsInt(args[index]).value;
      if length <= 0 then Err(InvalidArguments("window length must be positive"))
      else if length > maxWindowLength then Err(LimitExceeded("window length"))
      else Ok(length)
  }

  function PivotLeg(maxWindowLength: nat, args: seq<Value>, index: nat): (r: Result<nat, IntrinsicError>)
    ensures r.Ok? ==> 0 < r.value <= maxWindowLength
  {
    if index >= |args| || !args[index].Int? then Err(InvalidArguments("pivot legs must be integers"))
    else if args[index].i <= 0 then Err(InvalidArguments("pivot legs must be positive"))
    else if args[index].i > maxWindowLength then Err(LimitExceeded("pivot window"))
    else Ok(args[index].i)
  }

  function PivotLegs(maxWindowLength: nat, args: seq<Value>): (r: Result<(nat, nat), IntrinsicError>)
    ensures r.Ok? ==> r.value.0 > 0 && r.value.1 > 0 && r.value.0 + r.value.1 + 1 <= maxWindowLength
  {
    match PivotLeg(maxWindowLength, args, 1)
    case Err(error) => Err(error)
    case Ok(left) =>
      match PivotLeg(maxWindowLength, args, 2)
      case Err(error) => Err(error)
      case Ok(right) =>
        if left + right + 1 > maxWindowLength then Err(LimitExceeded("pivot window")) else Ok((left, right))
  }

  // A sample is a number of either kind.
  lemma SourceIsExact(args: seq<Value>, x: real)
    ensures Source(args) == Some(x)
       <==> args != [] && (args[0] == Float(Finite(x)) || (args[0].Int? && args[0].i as real == x))
  {
  }

  // A length is a positive integer within the limit, or a number cut down to
  // one. What is too large for the integers is the largest of them.
  lemma WindowLengthIsExact(maxWindowLength: nat, args: seq<Value>, index: nat, n: nat)
    ensures WindowLength(maxWindowLength, args, index) == Ok(n)
       <==> (&& index < |args| && 0 < n <= maxWindowLength
             && (|| args[index] == Int(n)
                 || (&& args[index].Float? && args[index].f.Finite?
                     && n <= I64_MAX && n as real <= args[index].f.r
                     && (n < I64_MAX ==> args[index].f.r < n as real + 1.0))))
  {
  }

  // The legs are positive integers that fit the limit with their candidate.
  lemma PivotLegsAreExact(maxWindowLength: nat, args: seq<Value>, left: nat, right: nat)
    ensures PivotLegs(maxWindowLength, args) == Ok((left, right))
       <==> (&& |args| > 2 && args[1] == Int(left) && args[2] == Int(right)
             && left > 0 && right > 0 && left + right + 1 <= maxWindowLength)
  {
  }

  // The message when the state at a call site belongs to another builtin.
  function Mismatch(owner: Owner, found: IntrinsicState): string {
    match owner
    case Sma => "ta.sma call site has incompatible state"
    case Stdev => "ta.stdev call site has incompatible state"
    case Dev => "ta.dev call site has incompatible state"
    case Window(_) =>
      if found.Rolling? && found.owner.Window? then "window mode changed at a call site"
      else "window call site has incompatible state"
    case Pivot(_) =>
      if found.Rolling? && found.owner.Pivot? then "pivot mode changed at a call site"
      else "pivot call site has incompatible state"
  }

  // The deque a builtin finds at its call site: an empty one on the first
  // call, none at all when the state is another builtin's.
  function Found(states: States, site: CallSiteId, owner: Owner): Option<seq<Sample>> {
    if site !in states then Some([])
    else if states[site].Rolling? && states[site].owner == owner then Some(states[site].values)
    else None
  }

  // A call on a foreign state fails and changes nothing; any other pushes the
  // source into the call site's deque and leaves all other sites alone.
  ghost predicate Rolled(before: States, after: States, site: CallSiteId, owner: Owner, source: Sample, length: nat) {
    match Found(before, site, owner)
    case None => after == before
    case Some(values) => after == before[site := Rolling(owner, Last(values + [source], length))]
  }

  // ---------------------------------------------------------------------
  // One call, as a function of the state at its site
  // ---------------------------------------------------------------------

  datatype Builtin = Rolls(owner: Owner) | BarsSince(maximum: bool) | RelativeStrength

  // `fixedWindow` says that the arguments for the window are fixed expressions.
  datatype Call = Call(site: CallSiteId, builtin: Builtin, args: seq<Value>, bar: nat, fixedWindow: bool)

  function StatisticOf(owner: Owner): Statistic
    requires !owner.Pivot?
  {
    match owner
    case Sma => Average
    case Window(maximum) => if maximum then Highest else Lowest
    case Stdev => Spread
    case Dev => AbsoluteDeviation
  }

  // How many samples a call keeps, or what is wrong with its arguments.
  function Retained(maxWindowLength: nat, call: Call): (r: Result<nat, IntrinsicError>)
    ensures r.Ok? ==> 0 < r.value <= maxWindowLength
  {
    if call.builtin.Rolls? && call.builtin.owner.Pivot? then
      match PivotLegs(maxWindowLength, call.args)
      case Err(error) => Err(error)
      case Ok((left, right)) => Ok(if call.fixedWindow then left + right + 1 else maxWindowLength)
    else WindowLength(maxWindowLength, call.args, 1)
  }

  // What a rolling builtin reports of its deque.
  function Reading(maxWindowLength: nat, call: Call, values: seq<Sample>): Sample
    requires call.builtin.Rolls? && Retained(maxWindowLength, call).Ok?
  {
    match call.builtin.owner
    case Pivot(maximum) =>
      var (left, right) := PivotLegs(maxWindowLength, call.args).value;
      PivotOutput(maximum, values, left, right)
    case owner => WindowOutput(StatisticOf(owner), values, Retained(maxWindowLength, call).value)
  }

  function OffsetValue(offset: Option<int>): Value {
    match offset
    case None => Na
    case Some(bars) => Float(Finite(bars as real))
  }

  function OutcomeResult(outcome: Rsi.Outcome): Result<Value, IntrinsicError> {
    match outcome
    case Reported(value) => Ok(FloatValue(value))
    case IncompleteAverages => Err(InvalidState("ta.rsi call site has incomplete average state"))
  }

  // The state that a builtin starts from.
  function Unused(builtin: Builtin): IntrinsicState {
    match builtin
    case Rolls(owner) => Rolling(owner, [])
    case BarsSince(maximum) => ExtremeBars(maximum, [])
    case RelativeStrength => RsiState(Rsi.FRESH)
  }

  predicate Belongs(state: IntrinsicState, builtin: Builtin) {
    match builtin
    case Rolls(owner) => state.Rolling? && state.owner == owner
    case BarsSince(maximum) => state.ExtremeBars? && state.maximum == maximum
    case RelativeStrength => state.RsiState?
  }

  // The message when a call site already belongs to another builtin.
  function Foreign(builtin: Builtin, found: IntrinsicState): string {
    match builtin
    case Rolls(owner) => Mismatch(owner, found)
    case BarsSince(_) =>
      if found.ExtremeBars? then "extreme bar mode changed at a call site"
      else "extreme bars call site has incompatible state"
    case RelativeStrength => "ta.rsi call site has incompatible state"
  }

  // The call on a state of its own builtin.
  function Advanced(maxWindowLength: nat, state: IntrinsicState, call: Call): (IntrinsicState, Result<Value, IntrinsicError>)
    requires Retained(maxWindowLength, call).Ok? && Belongs(state, call.builtin)
  {
    var (source, length) := (Source(call.args), Retained(maxWindowLength, call).value);
    match call.builtin
    case Rolls(owner) =>
      var values := Last(state.values + [source], length);
      (Rolling(owner, values), Ok(FloatValue(Reading(maxWindowLength, call, values))))
    case BarsSince(maximum) =>
      var bars := Last(state.bars + [StampSample(source, call.bar)], length);
      (ExtremeBars(maximum, bars), Ok(OffsetValue(BarsOutput(maximum, bars, length, call.bar))))
    case RelativeStrength =>
      var (rsi, outcome) := Rsi.Step(state.rsi, source, length);
      (RsiState(rsi), OutcomeResult(outcome))
  }

  function SiteStep(maxWindowLength: nat, state: Option<IntrinsicState>, call: Call): (Option<IntrinsicState>, Result<Value, IntrinsicError>) {
    if Retained(maxWindowLength, call).Err? then (state, Err(Retained(maxWindowLength, call).error))
    else
      var found := if state.Some? then state.value else Unused(call.builtin);
      if !Belongs(found, call.builtin) then (state, Err(InvalidState(Foreign(call.builtin, found))))
      else
        var (next, result) := Advanced(maxWindowLength, found, call);
        (Some(next), result)
  }

  function StateAt(states: States, site: CallSiteId): Option<IntrinsicState> {
    if site in states then Some(states[site]) else None
  }

  function Evaluated(maxWindowLength: nat, states: States, call: Call): (States, Result<Value, IntrinsicError>) {
    var (state, result) := SiteStep(maxWindowLength, StateAt(states, call.site), call);
    (if state.Some? then states[call.site := state.value] else states, result)
  }

  class EvalContext {
    const maxWindowLength: nat
    const fixedWindow: bool
    const barIndex: nat
    var states: States

    constructor (maxWindowLength: nat, fixedWindow: bool, barIndex: nat, states: States)
      ensures this.maxWindowLength == maxWindowLength && this.fixedWindow == fixedWindow
      ensures this.barIndex == barIndex && this.states == states
    {
      this.maxWindowLength := maxWindowLength;
      this.fixedWindow := fixedWindow;
      this.barIndex := barIndex;
      this.states := states;
    }

    // The step the rolling builtins share: find or create the state, push.
    method Roll(site: CallSiteId, owner: Owner, source: Sample, length: nat)
      returns (r: Result<seq<Sample>, IntrinsicError>)
      requires length > 0
      modifies this`states
      ensures Rolled(old(states), states, site, owner, source, length)
      ensures match Found(old(states), site, owner)
              case None => r == Err(InvalidState(Mismatch(owner, old(states)[site])))
              case Some(values) => r == Ok(Last(values + [source], length))
    {
      var state := if site in states then states[site] else Rolling(owner, []);
      if !state.Rolling? || state.owner != owner {
        return Err(InvalidState(Mismatch(owner, state)));
      }
      var values := PushWindow(state.values, source, length);
      states := states[site := Rolling(owner, values)];
      r := Ok(values);
    }

    method EvalSma(site: CallSiteId, args: seq<Value>) returns (r: Result<Value, IntrinsicError>)
      modifies this`states
      ensures WindowResult(maxWindowLength, old(states), states, site, Sma, Average, args, r)
    {
      var source := Source(args);
      var length := WindowLength(maxWindowLength, args, 1);
      if length.Err? {
        return Err(length.error);
      }
      var rolled := Roll(site, Sma, source, length.value);
      if rolled.Err? {
        return Err(rolled.error);
      }
      var values := rolled.value;
      if |values| < length.value || exists i :: 0 <= i < |values| && values[i] == None {
        r := Ok(Na);
      } else {
        r := Ok(FloatValue(Some(Sum(Present(values)) / |values| as real)));
      }
    }

    method EvalWindow(site: CallSiteId, args: seq<Value>, maximum: bool) returns (r: Result<Value, IntrinsicError>)
      modifies this`states
      ensures WindowResult(maxWindowLength, old(states), states, site, Window(maximum),
                           if maximum then Highest else Lowest, args, r)
    {
      var length := WindowLength(maxWindowLength, args, 1);
      if length.Err? {
        return Err(length.error);
      }
      var rolled := Roll(site, Window(maximum), Source(args), length.value);
      if rolled.Err? {
        return Err(rolled.error);
      }
      var values := rolled.value;
      if |values| < length.value || exists i :: 0 <= i < |values| && values[i] == None {
        r := Ok(Na);
      } else {
        ExtremeIsExtreme(maximum, Present(values));
        r := Ok(FloatValue(Extreme(maximum, Present(values))));
      }
    }

    // Reals have no square root here, so this returns what stands under it.
    method EvalStdev(site: CallSiteId, args: seq<Value>) returns (r: Result<Value, IntrinsicError>)
      modifies this`states
      ensures WindowResult(maxWindowLength, old(states), states, site, Stdev, Spread, args, r)
    {
      var length := WindowLength(maxWindowLength, args, 1);
      if length.Err? {
        return Err(length.error);
      }
      var rolled := Roll(site, Stdev, Source(args), length.value);
      if rolled.Err? {
        return Err(rolled.error);
      }
      var values := rolled.value;
      if |values| < length.value || exists i :: 0 <= i < |values| && values[i] == None {
        return Ok(Na);
      }
      DeviationWithinStdev(Present(values));
      var mean := Sum(Present(values)) / |values| as real;
      var variance := SumOfSquares(Present(values), mean) / |values| as real;
      r := Ok(FloatValue(Some(if variance < 0.0 then 0.0 else variance)));
    }

    method EvalDev(site: CallSiteId, args: seq<Value>) returns (r: Result<Value, IntrinsicError>)
      modifies this`states
      ensures WindowResult(maxWindowLength, old(states), states, site, Dev, AbsoluteDeviation, args, r)
    {
      var length := WindowLength(maxWindowLength, args, 1);
      if length.Err? {
        return Err(length.error);
      }
      var rolled := Roll(site, Dev, Source(args), length.value);
      if rolled.Err? {
        return Err(rolled.error);
      }
      var values := rolled.value;
      if |values| < length.value || exists i :: 0 <= i < |values| && values[i] == None {
        return Ok(Na);
      }
      var mean := Sum(Present(values)) / |values| as real;
      r := Ok(FloatValue(Some(SumOfDistances(Present(values), mean) / |values| as real)));
    }

    method EvalPivot(site: CallSiteId, args: seq<Value>, maximum: bool) returns (r: Result<Value, IntrinsicError>)
      modifies this`states
      ensures match PivotLegs(maxWindowLength, args)
              case Err(error) => r == Err(error) && states == old(states)
              case Ok((left, right)) =>
                var retained := if fixedWindow then left + right + 1 else maxWindowLength;
                && Rolled(old(states), states, site, Pivot(maximum), Source(args), retained)
                && match Found(old(states), site, Pivot(maximum))
                   case None => r == Err(InvalidState(Mismatch(Pivot(maximum), old(states)[site])))
                   case Some(values) =>
                     r == Ok(FloatValue(PivotOutput(maximum, Last(values + [Source(args)], retained), left, right)))
    {
      hide Last, PivotOutput;
      var legs := PivotLegs(maxWindowLength, args);
      if legs.Err? {
        return Err(legs.error);
      }
      var (left, right) := legs.value;
      var length := left + right + 1;
      var rolled := Roll(site, Pivot(maximum), Source(args), if fixedWindow then length else maxWindowLength);
      if rolled.Err? {
        return Err(rolled.error);
      }
      var output := DecidePivot(maximum, rolled.value, left, right);
      r := Ok(output);
    }

    method EvalExtremeBars(site: CallSiteId, args: seq<Value>, maximum: bool) returns (r: Result<Value, IntrinsicError>)
      modifies this`states
      ensures match WindowLength(maxWindowLength, args, 1)
              case Err(error) => r == Err(error) && states == old(states)
              case Ok(length) =>
                if site in old(states) && !old(states)[site].ExtremeBars? then
                  r == Err(InvalidState("extreme bars call site has incompatible state")) && states == old(states)
                else if site in old(states) && old(states)[site].maximum != maximum then
                  r == Err(InvalidState("extreme bar mode changed at a call site")) && states == old(states)
                else
                  var before := if site in old(states) then old(states)[site].bars else [];
                  var bars := Last(before + [StampSample(Source(args), barIndex)], length);
                  && states == old(states)[site := ExtremeBars(maximum, bars)]
                  && r == Ok(match BarsOutput(maximum, bars, length, barIndex)
                             case None => Na
                             case Some(offset) => Float(Finite(offset as real)))
    {
      var length := WindowLength(maxWindowLength, args, 1);
      if length.Err? {
        return Err(length.error);
      }
      var state := if site in states then states[site] else ExtremeBars(maximum, []);
      if !state.ExtremeBars? {
        return Err(InvalidState("extreme bars call site has incompatible state"));
      }
      if state.maximum != maximum {
        return Err(InvalidState("extreme bar mode changed at a call site"));
      }
      var bars := PushWindow(state.bars, StampSample(Source(args), barIndex), length.value);
      states := states[site := ExtremeBars(maximum, bars)];
      var output := DecideOffset(maximum, bars, length.value, barIndex);
      r := Ok(output);
    }

    method EvalRsi(site: CallSiteId, args: seq<Value>) returns (r: Result<Value, IntrinsicError>)
      modifies this`states
      ensures match WindowLength(maxWindowLength, args, 1)
              case Err(error) => r == Err(error) && states == old(states)
              case Ok(length) =>
                if site in old(states) && !old(states)[site].RsiState? then
                  r == Err(InvalidState("ta.rsi call site has incompatible state")) && states == old(states)
                else
                  var before := if site in old(states) then old(states)[site].rsi else Rsi.FRESH;
                  var (after, outcome) := Rsi.Step(before, Source(args), length);
                  && states == old(states)[site := RsiState(after)]
                  && r == (match outcome
                           case Reported(value) => Ok(FloatValue(value))
                           case IncompleteAverages => Err(InvalidState("ta.rsi call site has incomplete average state")))
    {
      var parsed := WindowLength(maxWindowLength, args, 1);
      if parsed.Err? {
        return Err(parsed.error);
      }
      var length, source := parsed.value, Source(args);
      if site !in states {
        states := states[site := RsiState(Rsi.FRESH)];
      }
      var state := states[site];
      if !state.RsiState? {
        return Err(InvalidState("ta.rsi call site has incompatible state"));
      }
      var next, outcome := Advance(state.rsi, source, length);
      states := states[site := RsiState(next)];
      match outcome
      case Reported(value) => r := Ok(FloatValue(value));
      case IncompleteAverages => r := Err(InvalidState("ta.rsi call site has incomplete average state"));
    }

    // Any builtin: the errors, the whole new state and the result are those of
    // the one function above.
    method Evaluate(site: CallSiteId, builtin: Builtin, args: seq<Value>) returns (r: Result<Value, IntrinsicError>)
      modifies this`states
      ensures (states, r)
           == Evaluated(maxWindowLength, old(states), Call(site, builtin, args, barIndex, fixedWindow))
    {
      hide Last, WindowOutput, PivotOutput, BarsOutput, Rsi.Step, Mismatch, WindowLength, PivotLegs;
      match builtin
      case Rolls(owner) => r := EvaluateRolling(site, owner, args);
      case BarsSince(maximum) =>
        r := EvalExtremeBars(site, args, maximum);
        assert states == Evaluated(maxWindowLength, old(states), Call(site, builtin, args, barIndex, fixedWindow)).0;
      case RelativeStrength =>
        r := EvalRsi(site, args);
        assert states == Evaluated(maxWindowLength, old(states), Call(site, builtin, args, barIndex, fixedWindow)).0;
    }

    method EvaluateRolling(site: CallSiteId, owner: Owner, args: seq<Value>) returns (r: Result<Value, IntrinsicError>)
      modifies this`states
      ensures (states, r)
           == Evaluated(maxWindowLength, old(states), Call(site, Rolls(owner), args, barIndex, fixedWindow))
    {
      hide Last, WindowOutput, PivotOutput, Mismatch, WindowLength, PivotLegs;
      match owner {
        case Sma => r := EvalSma(site, args);
        case Window(maximum) => r := EvalWindow(site, args, maximum);
        case Stdev => r := EvalStdev(site, args);
        case Dev => r := EvalDev(site, args);
        case Pivot(maximum) => r := EvalPivot(site, args, maximum);
      }
      assert states == Evaluated(maxWindowLength, old(states), Call(site, Rolls(owner), args, barIndex, fixedWindow)).0;
    }
  }

  method DecidePivot(maximum: bool, values: seq<Sample>, left: nat, right: nat) returns (r: Value)
    ensures r == FloatValue(PivotOutput(maximum, values, left, right))
  {
    hide Last, Extreme;
    var length := left + right + 1;
    if |values| < length {
      return Na;
    }
    var candidate := values[|values| - 1 - right];
    if candidate == None {
      return Na;
    }
    var window := Last(values, length);
    if exists i :: 0 <= i < |window| && window[i] == None {
      return Na;
    }
    if candidate == Extreme(maximum, Present(window)) {
      r := FloatValue(candidate);
    } else {
      r := Na;
    }
  }

  method DecideOffset(maximum: bool, bars: seq<Option<Bar>>, length: nat, barIndex: nat) returns (r: Value)
    requires length > 0
    ensures r == match BarsOutput(maximum, bars, length, barIndex)
                 case None => Na
                 case Some(offset) => Float(Finite(offset as real))
  {
    if |bars| < length || exists i :: 0 <= i < |bars| && bars[i] == None {
      return Na;
    }
    hide OldestBest;
    var best := FindOldestBest(maximum, Present(bars));
    r := Float(Finite((barIndex - best.index) as real));
  }

  method FindOldestBest(maximum: bool, window: seq<Bar>) returns (best: Bar)
    requires window != []
    ensures best == OldestBest(maximum, window)
  {
    best := window[0];
    for i := 1 to |window|
      invariant best == OldestBest(maximum, window[..i])
    {
      assert window[..i + 1][..i] == window[..i];
      if Better(maximum, window[i], best) {
        best := window[i];
      }
    }
    assert window[..|window|] == window;
  }

  // One call of `ta.rsi` on its own state, step by step.
  method Advance(state: Rsi.State, source: Sample, length: nat) returns (rsi: Rsi.State, outcome: Rsi.Outcome)
    requires length > 0
    ensures (rsi, outcome) == Rsi.Step(state, source, length)
  {
    rsi := state.(previous := source);
    if source == None || state.previous == None {
      return rsi, Rsi.Reported(None);
    }
    var delta := source.value - state.previous.value;
    var gain, loss := Rsi.Gain(delta), Rsi.Loss(delta);
    var nextGain, nextLoss;
    if rsi.averageGain.Some? && rsi.averageLoss.Some? {
      nextGain := Rsi.Smooth(rsi.averageGain.value, gain, length);
      nextLoss := Rsi.Smooth(rsi.averageLoss.value, loss, length);
    } else if rsi.averageGain.None? && rsi.averageLoss.None? {
      rsi := rsi.(gainSum := rsi.gainSum + gain, lossSum := rsi.lossSum + loss, count := rsi.count + 1);
      if rsi.count < length {
        return rsi, Rsi.Reported(None);
      }
      nextGain, nextLoss := rsi.gainSum / length as real, rsi.lossSum / length as real;
    } else {
      return rsi, Rsi.IncompleteAverages;
    }
    rsi := rsi.(averageGain := Some(nextGain), averageLoss := Some(nextLoss));
    outcome := Rsi.Reported(Rsi.Index(nextGain, nextLoss));
  }

  // What `ta.sma`, `ta.highest`, `ta.lowest`, `ta.stdev` and `ta.dev` have in common.
  ghost predicate WindowResult(maxWindowLength: nat, before: States, after: States, site: CallSiteId, owner: Owner,
                               statistic: Statistic, args: seq<Value>, r: Result<Value, IntrinsicError>) {
    match WindowLength(maxWindowLength, args, 1)
    case Err(error) => r == Err(error) && after == before
    case Ok(length) =>
      && Rolled(before, after, site, owner, Source(args), length)
      && match Found(before, site, owner)
         case None => r == Err(InvalidState(Mismatch(owner, before[site])))
         case Some(values) => r == Ok(FloatValue(WindowOutput(statistic, Last(values + [Source(args)], length), length)))
  }
}
