/**
 The relative strength index (indicator-engine/src/intrinsic.rs, `eval_rsi`),
 against Wilder's definition on the whole history of samples.
 */
module Rsi {
  import opened Basics
  import opened Windows

  datatype State = State(previous: Sample, gainSum: real, lossSum: real, count: nat,
                         averageGain: Option<real>, averageLoss: Option<real>)

  datatype Outcome = Reported(value: Sample) | IncompleteAverages

  const FRESH: State := State(None, 0.0, 0.0, 0, None, None)

  function Gain(delta: real): real { if delta > 0.0 then delta else 0.0 }

  function Loss(delta: real): real { if delta < 0.0 then -delta else 0.0 }

  // A division by zero would be an infinity, which is reported as missing.
  function Index(gain: real, loss: real): Sample {
    if gain == 0.0 then Some(if loss == 0.0 then 50.0 else 0.0)
    else if loss == 0.0 then Some(100.0)
    else if 1.0 + gain / loss == 0.0 then None
    else Some(100.0 - 100.0 / (1.0 + gain / loss))
  }

  function Smooth(average: real, x: real, length: nat): real
    requires length > 0
  {
    (average * (length as real - 1.0) + x) / length as real
  }

  ghost predicate Valid(s: State) {
    && (s.averageGain.Some? <==> s.averageLoss.Some?)
    && s.gainSum >= 0.0 && s.lossSum >= 0.0
    && (s.averageGain.Some? ==> s.averageGain.value >= 0.0 && s.averageLoss.value >= 0.0)
  }

  // What one call makes of a delta between two adjacent samples.
  function Absorb(s: State, delta: real, length: nat): (State, Outcome)
    requires length > 0
  {
    var gain, loss := Gain(delta), Loss(delta);
    match (s.averageGain, s.averageLoss)
    case (Some(g), Some(l)) => Settle(s, Smooth(g, gain, length), Smooth(l, loss, length))
    case (None, None) =>
      var seeded := s.(gainSum := s.gainSum + gain, lossSum := s.lossSum + loss, count := s.count + 1);
      if seeded.count < length then (seeded, Reported(None))
      else Settle(seeded, seeded.gainSum / length as real, seeded.lossSum / length as real)
    case _ => (s, IncompleteAverages)
  }

  function Settle(s: State, gain: real, loss: real): (State, Outcome) {
    (s.(averageGain := Some(gain), averageLoss := Some(loss)), Reported(Index(gain, loss)))
  }

  // What one call does to the state, and what it reports.
  function Step(s: State, source: Sample, length: nat): (State, Outcome)
    requires length > 0
  {
    match source
    case None => (s.(previous := None), Reported(None))
    case Some(x) =>
      var next := s.(previous := Some(x));
      match s.previous
      case None => (next, Reported(None))
      case Some(previous) => Absorb(next, x - previous, length)
  }

  ghost function RunState(feeds: seq<Feed<real>>): State
    requires Positive(feeds)
  {
    if feeds == [] then FRESH
    else Step(RunState(feeds[..|feeds| - 1]), feeds[|feeds| - 1].sample, feeds[|feeds| - 1].length).0
  }

  // The result of the last call of a run.
  ghost function RunOutcome(feeds: seq<Feed<real>>): Outcome
    requires Positive(feeds) && feeds != []
  {
    Step(RunState(feeds[..|feeds| - 1]), feeds[|feeds| - 1].sample, feeds[|feeds| - 1].length).1
  }

  lemma AverageNonNegative(average: real, x: real, length: nat)
    requires average >= 0.0 && x >= 0.0 && length > 0
    ensures Smooth(average, x, length) >= 0.0
  {
    assert average * (length as real - 1.0) >= 0.0;
    QuotientNonNegative(average * (length as real - 1.0) + x, length as real);
  }

  lemma QuotientNonNegative(x: real, n: real)
    requires x >= 0.0 && n > 0.0
    ensures x / n >= 0.0
  {
    assert x == (x / n) * n;
    CancelFactor(0.0, x / n, n);
  }

  // Both averages being non-negative, the index is the gain's share of the
  // total, in percent.
  lemma IndexIsShare(gain: real, loss: real)
    requires gain >= 0.0 && loss >= 0.0
    ensures Index(gain, loss).Some?
    ensures Index(gain, loss).value * (gain + loss) == 100.0 * gain
    ensures 0.0 <= Index(gain, loss).value <= 100.0
  {
    if gain > 0.0 && loss > 0.0 {
      var rs := gain / loss;
      assert rs * loss == gain;
      CancelFactor(0.0, rs, loss);
      var d := 1.0 + rs;
      assert d * loss == gain + loss;
      var q := 100.0 / d;
      assert q * d == 100.0;
      CancelFactor(0.0, q, d);
      CancelFactor(q, 100.0, d);
      Associate(q, d, loss);
    }
  }

  lemma Associate(a: real, b: real, c: real)
    ensures (a * b) * c == a * (b * c)
  {
  }

  lemma EqualShares(a: real, b: real, total: real)
    requires total > 0.0 && a * total == b * total
    ensures a == b
  {
    CancelFactor(a, b, total);
    CancelFactor(b, a, total);
  }

  lemma IndexSymmetry(gain: real, loss: real)
    requires gain >= 0.0 && loss >= 0.0
    ensures Index(gain, loss).Some? && Index(loss, gain).Some?
    ensures Index(gain, loss).value + Index(loss, gain).value == 100.0
  {
    IndexIsShare(gain, loss);
    IndexIsShare(loss, gain);
    if gain + loss > 0.0 {
      var t, x, y := gain + loss, Index(gain, loss).value, Index(loss, gain).value;
      assert (x + y) * t == x * t + y * t;
      EqualShares(x + y, 100.0, t);
    }
  }

  lemma IndexScale(gain: real, loss: real, k: real)
    requires gain >= 0.0 && loss >= 0.0 && k > 0.0
    ensures Index(Times(k, gain), Times(k, loss)) == Index(gain, loss)
  {
    assert k * gain >= 0.0 && k * loss >= 0.0;
    IndexIsShare(gain, loss);
    IndexIsShare(k * gain, k * loss);
    if gain + loss > 0.0 {
      var t, x, y := gain + loss, Index(gain, loss).value, Index(k * gain, k * loss).value;
      assert k * gain + k * loss == k * t;
      Associate(y, k, t);
      Associate(k, x, t);
      assert (y * k) * t == (k * x) * t;
      EqualShares(y * k, x * k, t);
      EqualShares(y, x, k);
    } else {
      assert k * gain == 0.0 && k * loss == 0.0;
    }
  }

  // In every run, with gaps and with lengths that change from call to call,
  // the incomplete-average error is never reached and results stay in range.
  lemma {:induction false} RunStaysInRange(feeds: seq<Feed<real>>)
    requires Positive(feeds)
    ensures Valid(RunState(feeds))
    ensures feeds != [] ==>
              && RunOutcome(feeds).Reported?
              && (RunOutcome(feeds).value.Some? ==> 0.0 <= RunOutcome(feeds).value.value <= 100.0)
  {
    if feeds != [] {
      var front, last := feeds[..|feeds| - 1], feeds[|feeds| - 1];
      RunStaysInRange(front);
      StepStaysInRange(RunState(front), last.sample, last.length);
    }
  }

  lemma StepStaysInRange(s: State, source: Sample, length: nat)
    requires Valid(s) && length > 0
    ensures var (next, outcome) := Step(s, source, length);
            && Valid(next)
            && outcome.Reported?
            && (outcome.value.Some? ==> 0.0 <= outcome.value.value <= 100.0)
  {
    hide Smooth, Index;
    if source.Some? && s.previous.Some? {
      var delta := source.value - s.previous.value;
      if s.averageGain.Some? {
        AverageNonNegative(s.averageGain.value, Gain(delta), length);
        AverageNonNegative(s.averageLoss.value, Loss(delta), length);
        IndexIsShare(Smooth(s.averageGain.value, Gain(delta), length), Smooth(s.averageLoss.value, Loss(delta), length));
      } else {
        QuotientNonNegative(s.gainSum + Gain(delta), length as real);
        QuotientNonNegative(s.lossSum + Loss(delta), length as real);
        IndexIsShare((s.gainSum + Gain(delta)) / length as real, (s.lossSum + Loss(delta)) / length as real);
      }
    }
  }

  // ---------------------------------------------------------------------
  // Wilder's definition
  // ---------------------------------------------------------------------

  predicate HasDelta(history: seq<Sample>) {
    |history| >= 2 && history[|history| - 2].Some? && history[|history| - 1].Some?
  }

  // The deltas between adjacent samples that are both present.
  ghost function Deltas(history: seq<Sample>): seq<real> {
    if history == [] then []
    else
      Deltas(history[..|history| - 1])
      + (if HasDelta(history) then [history[|history| - 1].value - history[|history| - 2].value] else [])
  }

  ghost function Gains(deltas: seq<real>): (r: seq<real>)
    ensures |r| == |deltas|
  {
    if deltas == [] then [] else Gains(deltas[..|deltas| - 1]) + [Gain(deltas[|deltas| - 1])]
  }

  ghost function Losses(deltas: seq<real>): (r: seq<real>)
    ensures |r| == |deltas|
  {
    if deltas == [] then [] else Losses(deltas[..|deltas| - 1]) + [Loss(deltas[|deltas| - 1])]
  }

  // The mean of the first `length` numbers, smoothed by each later one.
  ghost function Wilder(xs: seq<real>, length: nat): real
    requires 0 < length <= |xs|
  {
    if |xs| == length then Sum(xs) / length as real
    else Smooth(Wilder(xs[..|xs| - 1], length), xs[|xs| - 1], length)
  }

  // The index promised on the whole history for a constant length.
  ghost function Promised(history: seq<Sample>, length: nat): Sample
    requires length > 0
  {
    var deltas := Deltas(history);
    if HasDelta(history) && |deltas| >= length
    then Index(Wilder(Gains(deltas), length), Wilder(Losses(deltas), length))
    else None
  }

  // The state of a run of constant length, in terms of its history alone.
  ghost predicate Describes(s: State, history: seq<Sample>, length: nat)
    requires length > 0
  {
    var gains, losses := Gains(Deltas(history)), Losses(Deltas(history));
    && s.previous == (if history == [] then None else history[|history| - 1])
    && (|gains| < length ==>
          && s.count == |gains| && s.gainSum == Sum(gains) && s.lossSum == Sum(losses)
          && s.averageGain == None && s.averageLoss == None)
    && (|gains| >= length ==>
          && s.averageGain == Some(Wilder(gains, length))
          && s.averageLoss == Some(Wilder(losses, length)))
  }

  // For every stream of samples with gaps, the streaming index is Wilder's.
  lemma {:induction false} RunIsWilder(feeds: seq<Feed<real>>, length: nat)
    requires length > 0
    requires forall i :: 0 <= i < |feeds| ==> feeds[i].length == length
    ensures Describes(RunState(feeds), Samples(feeds), length)
    ensures feeds != [] ==> RunOutcome(feeds) == Reported(Promised(Samples(feeds), length))
  {
    if feeds != [] {
      var front, last := feeds[..|feeds| - 1], feeds[|feeds| - 1];
      RunIsWilder(front, length);
      assert Samples(feeds)[..|feeds| - 1] == Samples(front);
      StepIsWilder(RunState(front), Samples(front), last.sample, length);
      assert Samples(front) + [last.sample] == Samples(feeds);
    }
  }

  lemma StepIsWilder(s: State, history: seq<Sample>, sample: Sample, length: nat)
    requires length > 0 && Describes(s, history, length)
    ensures Describes(Step(s, sample, length).0, history + [sample], length)
    ensures Step(s, sample, length).1 == Reported(Promised(history + [sample], length))
  {
    var longer, deltas := history + [sample], Deltas(history);
    assert longer[..|longer| - 1] == history;
    hide Smooth, Index;
    if HasDelta(longer) {
      var delta := sample.value - history[|history| - 1].value;
      assert Deltas(longer) == deltas + [delta];
      AppendDelta(deltas, delta, length);
    } else {
      assert Deltas(longer) == deltas;
    }
  }

  lemma AppendDelta(deltas: seq<real>, delta: real, length: nat)
    requires length > 0
    ensures var longer := deltas + [delta];
            && Sum(Gains(longer)) == Sum(Gains(deltas)) + Gain(delta)
            && Sum(Losses(longer)) == Sum(Losses(deltas)) + Loss(delta)
            && (|longer| == length ==>
                  && Wilder(Gains(longer), length) == Sum(Gains(longer)) / length as real
                  && Wilder(Losses(longer), length) == Sum(Losses(longer)) / length as real)
            && (|deltas| >= length ==>
                  && Wilder(Gains(longer), length) == Smooth(Wilder(Gains(deltas), length), Gain(delta), length)
                  && Wilder(Losses(longer), length) == Smooth(Wilder(Losses(deltas), length), Loss(delta), length))
  {
    hide Smooth;
    var longer := deltas + [delta];
    assert longer[..|deltas|] == deltas;
    var gains, losses := Gains(longer), Losses(longer);
    assert gains[..|deltas|] == Gains(deltas) && losses[..|deltas|] == Losses(deltas);
  }

  // ---------------------------------------------------------------------
  // What the smoothing amounts to
  // ---------------------------------------------------------------------

  // What `k` smoothing steps leave of a number: ((length - 1) / length) ^ k.
  ghost function Decay(length: nat, k: nat): real
    requires length > 0
  {
    if k == 0 then 1.0 else Times(KeptShare(length), Decay(length, k - 1))
  }

  function KeptShare(length: nat): real
    requires length > 0
  {
    (length as real - 1.0) / length as real
  }

  // The weight of number `i` of `count`: the first `length` of them count
  // alike, and every number decays with each one that follows it later.
  ghost function Weight(length: nat, i: nat, count: nat): real
    requires 0 < length <= count && i < count
  {
    Decay(length, if i < length then count - length else count - 1 - i) / length as real
  }

  ghost function Weighted(xs: seq<real>, length: nat): (r: seq<real>)
    requires 0 < length <= |xs|
    ensures |r| == |xs| && forall i :: 0 <= i < |xs| ==> r[i] == Times(Weight(length, i, |xs|), xs[i])
  {
    seq(|xs|, i requires 0 <= i < |xs| => Times(Weight(length, i, |xs|), xs[i]))
  }

  // Wilder's average is the sum of all numbers, each with its own weight.
  lemma {:induction false} WilderIsWeightedSum(xs: seq<real>, length: nat)
    requires 0 < length <= |xs|
    ensures Wilder(xs, length) == Sum(Weighted(xs, length))
  {
    var n, weighted := length as real, Weighted(xs, length);
    if |xs| == length {
      assert forall i :: 0 <= i < length ==> Weight(length, i, length) == 1.0 / n;
      assert weighted == Multiplied(xs, 1.0 / n);
      SumOfMultiplied(xs, 1.0 / n);
      ReciprocalTimes(n, Sum(xs));
    } else {
      var front, x := xs[..|xs| - 1], xs[|xs| - 1];
      WilderIsWeightedSum(front, length);
      hide Smooth, Sum, Times, Weighted;
      WeightedAppend(front, x, length);
      assert front + [x] == xs;
      SumOfMultiplied(Weighted(front, length), KeptShare(length));
      SumOfOne(x / n);
      SumOfConcat(Multiplied(Weighted(front, length), KeptShare(length)), [x / n]);
      SmoothIsMix(Wilder(front, length), x, length);
    }
  }

  lemma ReciprocalTimes(n: real, x: real)
    requires n > 0.0
    ensures Times(1.0 / n, x) == x / n
  {
    var r := 1.0 / n;
    assert r * n == 1.0;
    assert (r * x) * n == x;
  }

  lemma WeightedAppend(front: seq<real>, x: real, length: nat)
    requires 0 < length <= |front|
    ensures Weighted(front + [x], length) == Multiplied(Weighted(front, length), KeptShare(length)) + [x / length as real]
  {
    var n, longer := |front|, front + [x];
    hide Times, Decay, KeptShare;
    forall i | 0 <= i < n
      ensures Times(Weight(length, i, n + 1), longer[i]) == Times(KeptShare(length), Times(Weight(length, i, n), front[i]))
    {
      WeightDecays(length, i, n, front[i]);
    }
    NewestWeight(length, n, x);
  }

  lemma WeightDecays(length: nat, i: nat, count: nat, x: real)
    requires 0 < length <= count && i < count
    ensures Times(Weight(length, i, count + 1), x) == Times(KeptShare(length), Times(Weight(length, i, count), x))
  {
    hide KeptShare;
    var k := if i < length then count - length else count - 1 - i;
    assert Decay(length, k + 1) == Times(KeptShare(length), Decay(length, k));
    MultipleOfQuotient(KeptShare(length), Decay(length, k), length as real);
    Associate(KeptShare(length), Weight(length, i, count), x);
  }

  lemma NewestWeight(length: nat, count: nat, x: real)
    requires 0 < length <= count
    ensures Times(Weight(length, count, count + 1), x) == x / length as real
  {
    hide Times;
    ReciprocalTimes(length as real, x);
  }

  // Smoothing moves the average by one part in `length` towards the number.
  lemma SmoothIsMix(average: real, x: real, length: nat)
    requires length > 0
    ensures Smooth(average, x, length) == Times(KeptShare(length), average) + x / length as real
    ensures Times(length as real, Smooth(average, x, length)) == Times(length as real - 1.0, average) + x
  {
    SumOfQuotients(length as real - 1.0, average, x, length as real);
  }

  lemma SumOfQuotients(a: real, b: real, x: real, n: real)
    requires n > 0.0
    ensures (b * a + x) / n == Times(a / n, b) + x / n
    ensures Times(n, (b * a + x) / n) == Times(a, b) + x
  {
    var q, r := a / n, x / n;
    assert q * n == a && r * n == x;
    assert (q * b + r) * n == (q * n) * b + r * n;
    assert ((b * a + x) / n) * n == b * a + x;
    SameQuotient((b * a + x) / n, q * b + r, n, b * a + x);
  }

  // Gains and losses are the two parts of the deltas.
  lemma {:induction false} GainsAndLosses(deltas: seq<real>)
    ensures forall i :: 0 <= i < |deltas| ==>
              && Gains(deltas)[i] >= 0.0 && Losses(deltas)[i] >= 0.0
              && Gains(deltas)[i] - Losses(deltas)[i] == deltas[i]
              && (Gains(deltas)[i] == 0.0 || Losses(deltas)[i] == 0.0)
  {
    if deltas != [] {
      GainsAndLosses(deltas[..|deltas| - 1]);
    }
  }

  // The positions whose sample and the one before it are both present.
  predicate IsStep(history: seq<Sample>, i: nat) {
    1 <= i < |history| && history[i - 1].Some? && history[i].Some?
  }

  ghost function Steps(history: seq<Sample>): set<nat> {
    set i: nat | i < |history| && IsStep(history, i)
  }

  // There is one delta for each of them, in their order.
  lemma {:induction false} DeltasInOrder(history: seq<Sample>, i: nat)
    ensures |Deltas(history)| == |Steps(history)|
    ensures IsStep(history, i) ==>
              var k := |Steps(history[..i])|;
              k < |Deltas(history)| && Deltas(history)[k] == history[i].value - history[i - 1].value
  {
    if history != [] {
      var last, front := |history| - 1, history[..|history| - 1];
      DeltasInOrder(front, i);
      StepsAppend(history);
      hide Steps;
      if i < last {
        assert front[..i] == history[..i];
      }
    }
  }

  lemma StepsAppend(history: seq<Sample>)
    requires history != []
    ensures |Steps(history)| == |Steps(history[..|history| - 1])| + if HasDelta(history) then 1 else 0
  {
    var last, front := |history| - 1, history[..|history| - 1];
    assert forall i: nat :: i < last ==> (IsStep(history, i) <==> IsStep(front, i));
    assert Steps(history) == Steps(front) + (if HasDelta(history) then {last} else {});
  }

  // The promised index, from the samples alone: present exactly when the last
  // two samples are and there were enough deltas, and then the share of the
  // weighted gains in all weighted moves, in percent.
  lemma {:induction false} PromisedIsIndex(history: seq<Sample>, length: nat)
    requires length > 0
    ensures Promised(history, length).Some? <==> HasDelta(history) && |Deltas(history)| >= length
    ensures Promised(history, length).Some? ==> IsIndex(Promised(history, length).value, Deltas(history), length)
  {
    hide Gains, Losses, Index, IsIndex;
    if |Deltas(history)| >= length {
      IndexOfDeltas(Deltas(history), length);
    }
  }

  // So is every result of a run of constant length.
  lemma {:induction false} RunIsClosedForm(feeds: seq<Feed<real>>, length: nat)
    requires length > 0 && feeds != []
    requires forall i :: 0 <= i < |feeds| ==> feeds[i].length == length
    ensures var history := Samples(feeds);
            var deltas, outcome := Deltas(history), RunOutcome(feeds);
            && outcome.Reported?
            && (outcome.value.Some? <==> HasDelta(history) && |deltas| >= length)
            && (outcome.value.Some? ==> IsIndex(outcome.value.value, deltas, length))
  {
    hide Samples, RunOutcome, IsIndex, Promised;
    RunIsWilder(feeds, length);
    PromisedIsIndex(Samples(feeds), length);
  }

  ghost predicate IsIndex(x: real, deltas: seq<real>, length: nat)
    requires 0 < length <= |deltas|
  {
    var gain, loss := Sum(Weighted(Gains(deltas), length)), Sum(Weighted(Losses(deltas), length));
    && gain >= 0.0 && loss >= 0.0
    && x * (gain + loss) == 100.0 * gain
    && (gain + loss == 0.0 ==> x == 50.0)
  }

  lemma IndexOfDeltas(deltas: seq<real>, length: nat)
    requires 0 < length <= |deltas|
    ensures var index := Index(Wilder(Gains(deltas), length), Wilder(Losses(deltas), length));
            index.Some? && IsIndex(index.value, deltas, length)
  {
    hide Gains, Losses, Wilder, Weighted, Sum;
    WilderIsWeightedSum(Gains(deltas), length);
    WilderIsWeightedSum(Losses(deltas), length);
    GainsAndLosses(deltas);
    WilderNonNegative(Gains(deltas), length);
    WilderNonNegative(Losses(deltas), length);
    IndexIsShare(Wilder(Gains(deltas), length), Wilder(Losses(deltas), length));
  }

  // ---------------------------------------------------------------------
  // Shift, scale and mirror
  // ---------------------------------------------------------------------

  function Transform(sample: Sample, k: real, c: real): Sample {
    match sample
    case Some(x) => Some(Times(k, x) + c)
    case None => None
  }

  // Every present sample x becomes k * x + c.
  ghost function Affine(history: seq<Sample>, k: real, c: real): (r: seq<Sample>)
    ensures |r| == |history|
  {
    if history == [] then []
    else
      Affine(history[..|history| - 1], k, c)
      + [Transform(history[|history| - 1], k, c)]
  }

  lemma {:induction false} AffineAt(history: seq<Sample>, k: real, c: real, i: nat)
    requires i < |history|
    ensures Affine(history, k, c)[i] == Transform(history[i], k, c)
  {
    assert Affine(history, k, c)[..|history| - 1] == Affine(history[..|history| - 1], k, c);
    if i < |history| - 1 {
      AffineAt(history[..|history| - 1], k, c, i);
    }
  }

  lemma {:induction false} AffineDeltas(history: seq<Sample>, k: real, c: real)
    ensures Deltas(Affine(history, k, c)) == Multiplied(Deltas(history), k)
    ensures HasDelta(Affine(history, k, c)) == HasDelta(history)
  {
    if history != [] {
      var front, image := history[..|history| - 1], Affine(history, k, c);
      AffineDeltas(front, k, c);
      assert image[..|history| - 1] == Affine(front, k, c);
      AffineAt(history, k, c, |history| - 1);
      if |history| >= 2 {
        AffineAt(history, k, c, |history| - 2);
      }
      if !HasDelta(history) {
        assert Deltas(image) == Deltas(Affine(front, k, c)) && Deltas(history) == Deltas(front);
      } else {
        var x, y := history[|history| - 2].value, history[|history| - 1].value;
        assert (Times(k, y) + c) - (Times(k, x) + c) == Times(k, y - x);
        ScaledAppend(Deltas(front), y - x, k);
        assert Deltas(history) == Deltas(front) + [y - x];
        assert Deltas(image) == Deltas(Affine(front, k, c)) + [Times(k, y - x)];
      }
    }
  }

  lemma ScaledAppend(xs: seq<real>, x: real, k: real)
    ensures Multiplied(xs + [x], k) == Multiplied(xs, k) + [Times(k, x)]
  {
  }

  // Scaling up scales both; a negative factor swaps gains and losses.
  lemma {:induction false} ScaledGains(deltas: seq<real>, k: real)
    ensures k > 0.0 ==> Gains(Multiplied(deltas, k)) == Multiplied(Gains(deltas), k) && Losses(Multiplied(deltas, k)) == Multiplied(Losses(deltas), k)
    ensures k < 0.0 ==> Gains(Multiplied(deltas, k)) == Multiplied(Losses(deltas), -k) && Losses(Multiplied(deltas, k)) == Multiplied(Gains(deltas), -k)
  {
    if deltas != [] {
      var front, d := deltas[..|deltas| - 1], deltas[|deltas| - 1];
      ScaledGains(front, k);
      GainOfScaled(d, k);
      AppendGain(Multiplied(front, k), Times(k, d));
      ScaledAppend(front, d, k);
      assert deltas == front + [d];
      ScaledAppend(Gains(front), Gain(d), if k > 0.0 then k else -k);
      ScaledAppend(Losses(front), Loss(d), if k > 0.0 then k else -k);
    }
  }

  lemma AppendGain(deltas: seq<real>, delta: real)
    ensures Gains(deltas + [delta]) == Gains(deltas) + [Gain(delta)]
    ensures Losses(deltas + [delta]) == Losses(deltas) + [Loss(delta)]
  {
    var longer := deltas + [delta];
    assert longer[..|longer| - 1] == deltas;
  }

  lemma GainOfScaled(d: real, k: real)
    ensures k > 0.0 ==> Gain(Times(k, d)) == Times(k, Gain(d)) && Loss(Times(k, d)) == Times(k, Loss(d))
    ensures k < 0.0 ==> Gain(Times(k, d)) == Times(-k, Loss(d)) && Loss(Times(k, d)) == Times(-k, Gain(d))
  {
    if k > 0.0 {
      assert d > 0.0 ==> k * d > 0.0;
      assert d < 0.0 ==> k * -d > 0.0;
    } else if k < 0.0 {
      assert d > 0.0 ==> -k * d > 0.0;
      assert d < 0.0 ==> -k * -d > 0.0;
    }
  }

  lemma {:induction false} ScaledWilder(xs: seq<real>, length: nat, k: real)
    requires 0 < length <= |xs|
    ensures Wilder(Multiplied(xs, k), length) == Times(k, Wilder(xs, length))
  {
    if |xs| == length {
      SumOfMultiplied(xs, k);
      ScaledQuotient(Sum(xs), length as real, k);
    } else {
      var front, x := xs[..|xs| - 1], xs[|xs| - 1];
      ScaledWilder(front, length, k);
      assert Multiplied(xs, k)[..|front|] == Multiplied(front, k) && Multiplied(xs, k)[|front|] == Times(k, x);
      hide Smooth;
      ScaledSmooth(Wilder(front, length), x, length, k);
    }
  }

  lemma ScaledSmooth(average: real, x: real, length: nat, k: real)
    requires length > 0
    ensures Smooth(Times(k, average), Times(k, x), length) == Times(k, Smooth(average, x, length))
  {
    var n := length as real;
    assert (k * average) * (n - 1.0) + k * x == k * (average * (n - 1.0) + x);
    ScaledQuotient(average * (n - 1.0) + x, n, k);
  }

  lemma ScaledQuotient(x: real, n: real, k: real)
    requires n > 0.0
    ensures Times(k, x) / n == Times(k, x / n)
  {
    var q := x / n;
    assert q * n == x;
    assert (k * q) * n == k * x;
  }

  lemma {:induction false} WilderNonNegative(xs: seq<real>, length: nat)
    requires 0 < length <= |xs|
    requires forall i :: 0 <= i < |xs| ==> xs[i] >= 0.0
    ensures Wilder(xs, length) >= 0.0
  {
    if |xs| == length {
      SumNonNegative(xs);
      QuotientNonNegative(Sum(xs), length as real);
    } else {
      WilderNonNegative(xs[..|xs| - 1], length);
      AverageNonNegative(Wilder(xs[..|xs| - 1], length), xs[|xs| - 1], length);
    }
  }

  lemma {:induction false} SumNonNegative(xs: seq<real>)
    requires forall i :: 0 <= i < |xs| ==> xs[i] >= 0.0
    ensures Sum(xs) >= 0.0
  {
    if xs != [] {
      SumNonNegative(xs[..|xs| - 1]);
    }
  }

  // The index ignores shifts and positive scales, and a mirrored history has
  // the complementary index: with k = -1 and c = 0, the two sum to 100.
  lemma AffineHistory(history: seq<Sample>, length: nat, k: real, c: real)
    requires length > 0 && k != 0.0
    ensures var plain, image := Promised(history, length), Promised(Affine(history, k, c), length);
            && (image.Some? <==> plain.Some?)
            && (plain.Some? ==> image.value == if k > 0.0 then plain.value else 100.0 - plain.value)
  {
    var deltas := Deltas(history);
    AffineDeltas(history, k, c);
    if HasDelta(history) && |deltas| >= length {
      ScaledGains(deltas, k);
      GainsAndLosses(deltas);
      ScaledAverages(Gains(deltas), Losses(deltas), length, if k > 0.0 then k else -k);
    }
  }

  lemma ScaledAverages(gains: seq<real>, losses: seq<real>, length: nat, m: real)
    requires 0 < length <= |gains| == |losses| && m > 0.0
    requires forall i :: 0 <= i < |gains| ==> gains[i] >= 0.0 && losses[i] >= 0.0
    ensures var gain, loss := Wilder(gains, length), Wilder(losses, length);
            var index := Index(gain, loss);
            && index.Some?
            && Index(Wilder(Multiplied(gains, m), length), Wilder(Multiplied(losses, m), length)) == index
            && Index(Wilder(Multiplied(losses, m), length), Wilder(Multiplied(gains, m), length)) == Some(100.0 - index.value)
  {
    hide Index, Wilder, Multiplied, Times;
    WilderNonNegative(gains, length);
    WilderNonNegative(losses, length);
    ScaledWilder(gains, length, m);
    ScaledWilder(losses, length, m);
    var gain, loss := Wilder(gains, length), Wilder(losses, length);
    IndexScale(gain, loss, m);
    IndexScale(loss, gain, m);
    IndexSymmetry(gain, loss);
  }

  // ---------------------------------------------------------------------
  // The run on the negated samples
  // ---------------------------------------------------------------------

  function Mirror(sample: Sample): Sample {
    match sample
    case Some(x) => Some(-x)
    case None => None
  }

  // Gains become losses and losses gains.
  function Swap(s: State): State {
    State(Mirror(s.previous), s.lossSum, s.gainSum, s.count, s.averageLoss, s.averageGain)
  }

  // The same lengths, and every sample negated.
  ghost predicate Mirrors(feeds: seq<Feed<real>>, mirrored: seq<Feed<real>>) {
    && |mirrored| == |feeds|
    && forall i :: 0 <= i < |feeds| ==> mirrored[i] == Feed(Mirror(feeds[i].sample), feeds[i].length)
  }

  // Results of both are defined together, and sum to 100.
  predicate Complements(a: Outcome, b: Outcome) {
    && a.Reported? && b.Reported? && (a.value.Some? <==> b.value.Some?)
    && (a.value.Some? ==> a.value.value + b.value.value == 100.0)
  }

  lemma MirroredStep(s: State, sample: Sample, length: nat)
    requires Valid(s) && length > 0
    ensures Step(Swap(s), Mirror(sample), length).0 == Swap(Step(s, sample, length).0)
    ensures Complements(Step(s, sample, length).1, Step(Swap(s), Mirror(sample), length).1)
  {
    hide Smooth, Index;
    StepStaysInRange(s, sample, length);
    if sample.Some? && s.previous.Some? {
      var delta := sample.value - s.previous.value;
      assert -sample.value - -s.previous.value == -delta;
      assert Gain(-delta) == Loss(delta) && Loss(-delta) == Gain(delta);
      var next := Step(s, sample, length).0;
      if next.averageGain.Some? {
        IndexSymmetry(next.averageGain.value, next.averageLoss.value);
      }
    }
  }

  // In every run, with gaps and with lengths that change from call to call,
  // the run on the negated samples has the complementary results.
  lemma {:induction false} MirroredRunsSumToHundred(feeds: seq<Feed<real>>, mirrored: seq<Feed<real>>)
    requires Positive(feeds) && Mirrors(feeds, mirrored)
    ensures Positive(mirrored)
    ensures RunState(mirrored) == Swap(RunState(feeds))
    ensures feeds != [] ==> Complements(RunOutcome(feeds), RunOutcome(mirrored))
  {
    hide Step, Complements, Swap;
    assert Positive(mirrored) by {
      assert forall i :: 0 <= i < |mirrored| ==> mirrored[i].length == feeds[i].length;
    }
    if feeds == [] {
      FreshIsSymmetric();
    } else {
      var (front, last) := (feeds[..|feeds| - 1], feeds[|feeds| - 1]);
      MirroredRunsSumToHundred(front, mirrored[..|feeds| - 1]);
      RunStaysInRange(front);
      MirroredStep(RunState(front), last.sample, last.length);
    }
  }

  lemma FreshIsSymmetric()
    ensures Swap(FRESH) == FRESH
  {
  }
}
