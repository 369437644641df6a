/**
 Rolling windows over a stream of samples, and what the `ta.*` builtins compute
 from one (indicator-engine/src/intrinsic.rs). A sample is missing (`None`) or
 a real number; rounding is not modelled.
 */
module Windows {
  import opened Basics

  type Sample = Option<real>

  // ---------------------------------------------------------------------
  // Folds over the numbers of a window
  // ---------------------------------------------------------------------

  function Sum(xs: seq<real>): real {
    if xs == [] then 0.0 else Sum(xs[..|xs| - 1]) + xs[|xs| - 1]
  }

  function Abs(x: real): real { if x < 0.0 then -x else x }

  // The fold from an infinity, which is `None` here.
  function Extreme(maximum: bool, xs: seq<real>): Option<real> {
    if xs == [] then None
    else
      var x := xs[|xs| - 1];
      match Extreme(maximum, xs[..|xs| - 1])
      case None => Some(x)
      case Some(best) => Some(if maximum then (if best < x then x else best) else (if x < best then x else best))
  }

  function Square(x: real): real { x * x }

  function SumOfSquares(xs: seq<real>, mean: real): real {
    if xs == [] then 0.0 else SumOfSquares(xs[..|xs| - 1], mean) + Square(xs[|xs| - 1] - mean)
  }

  function SumOfDistances(xs: seq<real>, mean: real): real {
    if xs == [] then 0.0 else SumOfDistances(xs[..|xs| - 1], mean) + Abs(xs[|xs| - 1] - mean)
  }

  function Mean(xs: seq<real>): real
    requires xs != []
  {
    Sum(xs) / |xs| as real
  }

  // The value under the square root of `ta.stdev`, before it is clamped at zero.
  function Variance(xs: seq<real>): real
    requires xs != []
  {
    SumOfSquares(xs, Mean(xs)) / |xs| as real
  }

  function Deviation(xs: seq<real>): real
    requires xs != []
  {
    SumOfDistances(xs, Mean(xs)) / |xs| as real
  }

  ghost predicate IsExtreme(maximum: bool, xs: seq<real>, x: real) {
    && x in xs
    && forall i :: 0 <= i < |xs| ==> if maximum then xs[i] <= x else x <= xs[i]
  }

  lemma {:induction false} ExtremeIsExtreme(maximum: bool, xs: seq<real>)
    ensures Extreme(maximum, xs) == None <==> xs == []
    ensures xs != [] ==> IsExtreme(maximum, xs, Extreme(maximum, xs).value)
  {
    if |xs| > 1 {
      ExtremeIsExtreme(maximum, xs[..|xs| - 1]);
    }
  }

  lemma ExtremeIsUnique(maximum: bool, xs: seq<real>, x: real)
    ensures Extreme(maximum, xs) == Some(x) <==> IsExtreme(maximum, xs, x)
  {
    ExtremeIsExtreme(maximum, xs);
  }

  // ---------------------------------------------------------------------
  // Order between the results on one window
  // ---------------------------------------------------------------------

  lemma {:induction false} SumBetween(xs: seq<real>, low: real, high: real)
    requires forall i :: 0 <= i < |xs| ==> low <= xs[i] <= high
    ensures low * |xs| as real <= Sum(xs) <= high * |xs| as real
  {
    if xs != [] {
      SumBetween(xs[..|xs| - 1], low, high);
    }
  }

  lemma LowestMeanHighest(xs: seq<real>)
    requires xs != []
    ensures Extreme(false, xs).Some? && Extreme(true, xs).Some?
    ensures Extreme(false, xs).value <= Mean(xs) <= Extreme(true, xs).value
  {
    ExtremeIsExtreme(false, xs);
    ExtremeIsExtreme(true, xs);
    var low, high := Extreme(false, xs).value, Extreme(true, xs).value;
    SumBetween(xs, low, high);
    QuotientBetween(Sum(xs), |xs| as real, low, high);
  }

  lemma QuotientBetween(sum: real, n: real, low: real, high: real)
    requires n > 0.0 && low * n <= sum <= high * n
    ensures low <= sum / n <= high
  {
    var q := sum / n;
    assert sum == q * n;
    CancelFactor(low, q, n);
    CancelFactor(q, high, n);
  }

  lemma CancelFactor(a: real, b: real, n: real)
    requires n > 0.0 && a * n <= b * n
    ensures a <= b
  {
    assert (b - a) * n >= 0.0;
  }

  // Cauchy-Schwarz against the all-ones vector.
  lemma {:induction false} SquareOfSum(xs: seq<real>, mean: real)
    ensures Square(SumOfDistances(xs, mean)) <= |xs| as real * SumOfSquares(xs, mean)
    ensures SumOfSquares(xs, mean) >= 0.0 && SumOfDistances(xs, mean) >= 0.0
  {
    if xs != [] {
      var front, x := xs[..|xs| - 1], xs[|xs| - 1] - mean;
      SquareOfSum(front, mean);
      AddSquare(SumOfDistances(front, mean), SumOfSquares(front, mean), |front| as real, Abs(x));
      assert Square(Abs(x)) == Square(x);
    }
  }

  lemma AddSquare(s: real, q: real, n: real, a: real)
    requires n >= 0.0 && q >= 0.0 && Square(s) <= n * q
    ensures Square(s + a) <= (n + 1.0) * (q + Square(a))
  {
    CrossTerm(s, q, n, a);
    var ss, sa, aa := s * s, s * a, a * a;
    assert Square(s + a) == ss + 2.0 * sa + aa;
    assert (n + 1.0) * (q + aa) == n * q + n * aa + q + aa;
  }

  lemma CrossTerm(s: real, q: real, n: real, a: real)
    requires n >= 0.0 && q >= 0.0 && Square(s) <= n * q
    ensures 2.0 * (s * a) <= q + n * Square(a)
  {
    if n == 0.0 {
      if s != 0.0 {
        PositiveSquare(s);
      }
    } else {
      ExpandSquare(s, n, a);
      var aa, sa := Square(a), s * a;
      assert (q + n * aa) * n == n * q + n * (n * aa);
      assert (2.0 * sa) * n == 2.0 * (n * sa);
      CancelFactor(2.0 * sa, q + n * aa, n);
    }
  }

  lemma ExpandSquare(s: real, n: real, a: real)
    ensures 0.0 <= s * s - 2.0 * (n * (s * a)) + n * (n * Square(a))
  {
    var d := s - n * a;
    assert d * d >= 0.0;
    assert d * d == s * s - 2.0 * (s * (n * a)) + (n * a) * (n * a);
    assert s * (n * a) == n * (s * a);
    assert (n * a) * (n * a) == n * (n * (a * a));
  }

  lemma PositiveSquare(s: real)
    requires s != 0.0
    ensures s * s > 0.0
  {
    if s < 0.0 {
      assert (-s) * (-s) > 0.0;
    }
  }

  // The mean absolute deviation never exceeds the standard deviation.
  lemma DeviationWithinStdev(xs: seq<real>)
    requires xs != []
    ensures 0.0 <= Variance(xs) && 0.0 <= Deviation(xs)
    ensures Deviation(xs) * Deviation(xs) <= Variance(xs)
  {
    var mean := Mean(xs);
    SquareOfSum(xs, mean);
    SquareOfQuotient(SumOfDistances(xs, mean), SumOfSquares(xs, mean), |xs| as real);
  }

  lemma SquareOfQuotient(s: real, q: real, n: real)
    requires n >= 1.0 && q >= 0.0 && s >= 0.0 && Square(s) <= n * q
    ensures (s / n) * (s / n) <= q / n && q / n >= 0.0 && s / n >= 0.0
  {
    var a, b := s / n, q / n;
    assert s == a * n && q == b * n;
    CancelFactor(0.0, b, n);
    CancelFactor(0.0, a, n);
    assert n * n > 0.0;
    assert (a * a) * (n * n) == s * s;
    assert b * (n * n) == n * q;
    CancelFactor(a * a, b, n * n);
  }

  // ---------------------------------------------------------------------
  // What the folds compute
  // ---------------------------------------------------------------------

  // The sum is additive, and does not depend on the order.
  lemma {:induction false} SumOfConcat(a: seq<real>, b: seq<real>)
    ensures Sum(a + b) == Sum(a) + Sum(b)
    decreases |b|
  {
    if b == [] {
      assert a + b == a;
    } else {
      var all := a + b;
      assert all[..|all| - 1] == a + b[..|b| - 1];
      SumOfConcat(a, b[..|b| - 1]);
    }
  }

  lemma SumOfOne(x: real)
    ensures Sum([]) == 0.0 && Sum([x]) == x
  {
    assert [x][..0] == [];
  }

  lemma {:induction false} SumOfPermutation(a: seq<real>, b: seq<real>)
    requires multiset(a) == multiset(b)
    ensures Sum(a) == Sum(b)
    decreases |a|
  {
    if a == [] {
      assert |multiset(b)| == 0;
    } else {
      var x := a[0];
      assert x in multiset(b);
      var i: nat :| i < |b| && b[i] == x;
      var rest := b[..i] + b[i + 1..];
      assert a == [x] + a[1..];
      assert b == b[..i] + [x] + b[i + 1..];
      SameRest(a, b, i);
      SumOfPermutation(a[1..], rest);
      SumOfConcat([x], a[1..]);
      SumOfConcat(b[..i] + [x], b[i + 1..]);
      SumOfConcat(b[..i], [x]);
      SumOfConcat(b[..i], b[i + 1..]);
    }
  }

  lemma SameRest(a: seq<real>, b: seq<real>, i: nat)
    requires a != [] && i < |b| && b[i] == a[0]
    requires multiset(a) == multiset(b)
    ensures multiset(a[1..]) == multiset(b[..i] + b[i + 1..])
  {
    assert a == [a[0]] + a[1..];
    assert b == b[..i] + [b[i]] + b[i + 1..];
    SameWithout(a[0], multiset(a[1..]), multiset(b[..i] + b[i + 1..]));
  }

  lemma SameWithout(x: real, a: multiset<real>, b: multiset<real>)
    requires multiset{x} + a == multiset{x} + b
    ensures a == b
  {
    forall y ensures a[y] == b[y] {
      assert (multiset{x} + a)[y] == (multiset{x} + b)[y];
    }
  }

  // Every number moved by `c`, and how far each is from `c`.
  function Shifted(xs: seq<real>, c: real): (r: seq<real>)
    ensures |r| == |xs| && forall i :: 0 <= i < |r| ==> r[i] == xs[i] + c
  {
    seq(|xs|, i requires 0 <= i < |xs| => xs[i] + c)
  }

  function Distances(xs: seq<real>, c: real): (r: seq<real>)
    ensures |r| == |xs| && forall i :: 0 <= i < |r| ==> r[i] == if xs[i] >= c then xs[i] - c else c - xs[i]
  {
    seq(|xs|, i requires 0 <= i < |xs| => if xs[i] >= c then xs[i] - c else c - xs[i])
  }

  function Times(k: real, x: real): real { k * x }

  function Multiplied(xs: seq<real>, k: real): (r: seq<real>)
    ensures |r| == |xs| && forall i :: 0 <= i < |r| ==> r[i] == Times(k, xs[i])
  {
    seq(|xs|, i requires 0 <= i < |xs| => Times(k, xs[i]))
  }

  lemma {:induction false} SumOfShifted(xs: seq<real>, c: real)
    ensures Sum(Shifted(xs, c)) == Sum(xs) + |xs| as real * c
  {
    if xs != [] {
      SumOfShifted(xs[..|xs| - 1], c);
      assert Shifted(xs, c)[..|xs| - 1] == Shifted(xs[..|xs| - 1], c);
    }
  }

  lemma {:induction false} SumOfMultiplied(xs: seq<real>, k: real)
    ensures Sum(Multiplied(xs, k)) == Times(k, Sum(xs))
  {
    if xs != [] {
      var front, x := xs[..|xs| - 1], xs[|xs| - 1];
      SumOfMultiplied(front, k);
      assert Multiplied(xs, k)[..|front|] == Multiplied(front, k);
      assert k * (Sum(front) + x) == k * Sum(front) + k * x;
    }
  }

  lemma {:induction false} DistancesSummed(xs: seq<real>, c: real)
    ensures SumOfDistances(xs, c) == Sum(Distances(xs, c))
  {
    if xs != [] {
      DistancesSummed(xs[..|xs| - 1], c);
      assert Distances(xs, c)[..|xs| - 1] == Distances(xs[..|xs| - 1], c);
    }
  }

  // The squares around any centre, from the sum and the sum of squares.
  lemma {:induction false} SquaresAround(xs: seq<real>, c: real)
    ensures SumOfSquares(xs, c) == SumOfSquares(xs, 0.0) - 2.0 * (c * Sum(xs)) + |xs| as real * (c * c)
  {
    hide Square;
    if xs != [] {
      var front, x := xs[..|xs| - 1], xs[|xs| - 1];
      SquaresAround(front, c);
      OneMoreSquare(SumOfSquares(front, 0.0), Sum(front), |front| as real, x, c);
    }
  }

  lemma OneMoreSquare(q: real, s: real, n: real, x: real, c: real)
    ensures q - 2.0 * (c * s) + n * (c * c) + Square(x - c)
         == q + Square(x - 0.0) - 2.0 * (c * (s + x)) + (n + 1.0) * (c * c)
  {
    SquareOfDifference(x, c);
    assert Square(x - 0.0) == x * x;
    var cs, cx, cc := c * s, c * x, c * c;
    assert c * (s + x) == cs + cx && x * c == cx;
    assert (n + 1.0) * cc == n * cc + cc;
  }

  lemma {:induction false} SquaresSummed(xs: seq<real>, squares: seq<real>)
    requires |squares| == |xs| && forall i :: 0 <= i < |xs| ==> squares[i] == Square(xs[i])
    ensures SumOfSquares(xs, 0.0) == Sum(squares)
  {
    if xs != [] {
      SquaresSummed(xs[..|xs| - 1], squares[..|xs| - 1]);
      assert Square(xs[|xs| - 1] - 0.0) == Square(xs[|xs| - 1]);
    }
  }

  // The mean times the count is the sum, and deviations from it cancel.
  lemma MeanIsBalanced(xs: seq<real>)
    requires xs != []
    ensures Mean(xs) * |xs| as real == Sum(xs)
    ensures Sum(Shifted(xs, -Mean(xs))) == 0.0
  {
    hide Sum, Shifted;
    SumOfShifted(xs, -Mean(xs));
    BalancedQuotient(Sum(xs), |xs| as real);
  }

  lemma BalancedQuotient(s: real, n: real)
    requires n > 0.0
    ensures (s / n) * n == s && s + n * -(s / n) == 0.0
  {
  }

  // The variance times the count, and the mean's share of the squares, make up
  // the sum of squares. No other centre has smaller squares around it.
  lemma VarianceIsExact(xs: seq<real>, squares: seq<real>, c: real)
    requires xs != []
    requires |squares| == |xs| && forall i :: 0 <= i < |xs| ==> squares[i] == Square(xs[i])
    ensures Times(|xs| as real, Variance(xs)) + Times(Mean(xs), Sum(xs)) == Sum(squares)
    ensures SumOfSquares(xs, c) == Times(|xs| as real, Variance(xs)) + Times(|xs| as real, Square(Mean(xs) - c))
    ensures Times(|xs| as real, Variance(xs)) <= SumOfSquares(xs, c)
  {
    hide Variance, Mean, Sum, SumOfSquares, Square, Times;
    AverageIsExact(xs, Mean(xs));
    SquaresSummed(xs, squares);
    VarianceTimesCount(xs);
    SquaresAround(xs, Mean(xs));
    SquaresAround(xs, c);
    CentreMoved(|xs| as real, Mean(xs), c, Sum(xs), SumOfSquares(xs, 0.0));
  }

  lemma VarianceTimesCount(xs: seq<real>)
    requires xs != []
    ensures Times(|xs| as real, Variance(xs)) == SumOfSquares(xs, Mean(xs))
  {
    hide Mean, SumOfSquares;
    QuotientTimes(SumOfSquares(xs, Mean(xs)), |xs| as real);
  }

  lemma QuotientTimes(x: real, n: real)
    requires n > 0.0
    ensures n * (x / n) == x
  {
  }

  lemma CentreMoved(n: real, m: real, c: real, s: real, q: real)
    requires n > 0.0 && Times(n, m) == s
    ensures q - 2.0 * (c * s) + n * (c * c) == (q - 2.0 * (m * s) + n * (m * m)) + Times(n, Square(m - c))
    ensures Times(n, Square(m - c)) >= 0.0
    ensures q - 2.0 * (m * s) + n * (m * m) + Times(m, s) == q
  {
    Reordered(m, m, n);
    Reordered(c, m, n);
    SquareOfDifference(m, c);
    ThreeTerms(n, m * m, m * c, c * c);
    SquareIsNonNegative(m - c);
    NonNegativeProduct(n, Square(m - c));
  }

  lemma Reordered(a: real, b: real, n: real)
    ensures a * (b * n) == n * (b * a)
  {
  }

  lemma SquareOfDifference(m: real, c: real)
    ensures Square(m - c) == m * m - 2.0 * (m * c) + c * c
  {
  }

  lemma ThreeTerms(n: real, a: real, b: real, c: real)
    ensures n * (a - 2.0 * b + c) == n * a - 2.0 * (n * b) + n * c
  {
  }

  lemma SquareIsNonNegative(x: real)
    ensures Square(x) >= 0.0
  {
    if x != 0.0 {
      PositiveSquare(x);
    }
  }

  lemma NonNegativeProduct(a: real, b: real)
    requires a >= 0.0 && b >= 0.0
    ensures a * b >= 0.0
  {
  }

  // The mean absolute deviation times the count is the sum of the distances
  // from the mean. Moving the samples does not change it, and scaling them
  // scales it.
  lemma DeviationIsExact(xs: seq<real>, c: real, k: real)
    requires xs != []
    ensures Deviation(xs) * |xs| as real == Sum(Distances(xs, Mean(xs)))
    ensures Mean(Shifted(xs, c)) == Mean(xs) + c && Deviation(Shifted(xs, c)) == Deviation(xs)
    ensures Mean(Multiplied(xs, k)) == Times(k, Mean(xs)) && Deviation(Multiplied(xs, k)) == Times(Abs(k), Deviation(xs))
  {
    hide Mean, Times, Sum, SumOfDistances, Distances, Shifted, Multiplied, Abs;
    DistancesSummed(xs, Mean(xs));
    BalancedQuotient(SumOfDistances(xs, Mean(xs)), |xs| as real);
    DeviationOfShifted(xs, c);
    DeviationOfMultiplied(xs, k);
  }

  lemma DeviationOfShifted(xs: seq<real>, c: real)
    requires xs != []
    ensures Mean(Shifted(xs, c)) == Mean(xs) + c && Deviation(Shifted(xs, c)) == Deviation(xs)
  {
    hide Sum, SumOfDistances, Abs;
    var n, m, moved := |xs| as real, Mean(xs), Shifted(xs, c);
    SumOfShifted(xs, c);
    SameQuotient(Mean(moved), m + c, n, Sum(xs) + n * c);
    DistancesSummed(xs, m);
    DistancesSummed(moved, m + c);
    assert Distances(moved, m + c) == Distances(xs, m);
  }

  lemma SameQuotient(a: real, b: real, n: real, total: real)
    requires n > 0.0 && a * n == total && b * n == total
    ensures a == b
  {
    CancelFactor(a, b, n);
    CancelFactor(b, a, n);
  }

  lemma DeviationOfMultiplied(xs: seq<real>, k: real)
    requires xs != []
    ensures Mean(Multiplied(xs, k)) == Times(k, Mean(xs)) && Deviation(Multiplied(xs, k)) == Times(Abs(k), Deviation(xs))
  {
    SumOfMultiplied(xs, k);
    MultipleOfQuotient(k, Sum(xs), |xs| as real);
    MultipliedDistances(xs, Mean(xs), k);
    SumOfMultiplied(Distances(xs, Mean(xs)), Abs(k));
    DistancesSummed(xs, Mean(xs));
    DistancesSummed(Multiplied(xs, k), Times(k, Mean(xs)));
    hide Sum, SumOfDistances, Times, Abs;
    MultipleOfQuotient(Abs(k), SumOfDistances(xs, Mean(xs)), |xs| as real);
  }

  lemma MultipleOfQuotient(k: real, x: real, n: real)
    requires n > 0.0
    ensures Times(k, x) / n == Times(k, x / n)
  {
    var q := x / n;
    assert q * n == x;
    assert (k * q) * n == k * x;
  }

  lemma MultipliedDistances(xs: seq<real>, m: real, k: real)
    ensures Distances(Multiplied(xs, k), Times(k, m)) == Multiplied(Distances(xs, m), Abs(k))
  {
    hide Times, Abs;
    forall i | 0 <= i < |xs| ensures Distances(Multiplied(xs, k), Times(k, m))[i] == Times(Abs(k), Distances(xs, m)[i]) {
      DistanceOfMultiple(xs[i], m, k);
    }
  }

  lemma DistanceOfMultiple(x: real, m: real, k: real)
    ensures (if Times(k, x) >= Times(k, m) then Times(k, x) - Times(k, m) else Times(k, m) - Times(k, x))
         == Times(Abs(k), if x >= m then x - m else m - x)
  {
    var d := x - m;
    assert k * x - k * m == k * d;
    if k >= 0.0 {
      assert d >= 0.0 ==> k * d >= 0.0;
      assert d <= 0.0 ==> k * -d >= 0.0;
    } else {
      assert d >= 0.0 ==> -k * d >= 0.0;
      assert d <= 0.0 ==> -k * -d >= 0.0;
    }
  }

  // ---------------------------------------------------------------------
  // The rolling window
  // ---------------------------------------------------------------------

  /** The deque update shared by all windowed builtins: make room, append. */
  method PushWindow<T>(values: seq<Option<T>>, value: Option<T>, length: nat) returns (r: seq<Option<T>>)
    requires length > 0
    ensures r == Last(values + [value], length)
  {
    r := values;
    while |r| >= length
      invariant |r| <= |values| && r == values[|values| - |r|..]
      invariant |r| >= Min(|values|, length - 1)
    {
      r := r[1..];
    }
    r := r + [value];
  }

  // One call of a windowed builtin: the sample it gets and its window length.
  datatype Feed<T> = Feed(sample: Option<T>, length: nat)

  ghost predicate Positive<T>(feeds: seq<Feed<T>>) {
    forall i :: 0 <= i < |feeds| ==> feeds[i].length > 0
  }

  function Samples<T>(feeds: seq<Feed<T>>): (r: seq<Option<T>>)
    ensures |r| == |feeds|
  {
    if feeds == [] then [] else Samples(feeds[..|feeds| - 1]) + [feeds[|feeds| - 1].sample]
  }

  // The deque after a run of calls.
  ghost function Run<T>(feeds: seq<Feed<T>>): seq<Option<T>> {
    if feeds == [] then []
    else
      var feed := feeds[|feeds| - 1];
      Last(Run(feeds[..|feeds| - 1]) + [feed.sample], feed.length)
  }

  // How many samples a run retains: no more than there were, and no more than
  // any call, however long ago, left behind plus what came after it.
  ghost predicate IsRetained<T>(feeds: seq<Feed<T>>, n: nat) {
    && n <= |feeds|
    && (forall k :: 0 <= k < |feeds| ==> n <= feeds[k].length + (|feeds| - 1 - k))
    && (n == |feeds| || exists k :: 0 <= k < |feeds| && n == feeds[k].length + (|feeds| - 1 - k))
  }

  ghost predicate IsSuffix<T>(part: seq<T>, whole: seq<T>) {
    && |part| <= |whole|
    && forall i, j :: 0 <= i < |part| && 0 <= j < |whole| && |part| - i == |whole| - j ==> part[i] == whole[j]
  }

  lemma LastOfSuffix<T>(part: seq<T>, whole: seq<T>, n: nat)
    requires IsSuffix(part, whole) && n <= |part|
    ensures Last(part, n) == Last(whole, n)
  {
    hide Last;
    forall i | 0 <= i < n ensures Last(part, n)[i] == Last(whole, n)[i] {
      assert part[|part| - n + i] == whole[|whole| - n + i];
    }
  }

  // The deque is always a suffix of the whole history ...
  lemma {:induction false} RunIsSuffix<T>(feeds: seq<Feed<T>>)
    requires Positive(feeds)
    ensures IsSuffix(Run(feeds), Samples(feeds))
  {
    if feeds != [] {
      RunIsSuffix(feeds[..|feeds| - 1]);
      hide Last;
    }
  }

  // ... of the size above.
  lemma {:induction false} RunRetains<T>(feeds: seq<Feed<T>>)
    requires Positive(feeds)
    ensures IsRetained(feeds, |Run(feeds)|)
  {
    if feeds != [] {
      var front, last := feeds[..|feeds| - 1], feeds[|feeds| - 1];
      RunRetains(front);
      var before := |Run(front)|;
      if before + 1 >= last.length {
        assert |Run(feeds)| == last.length + (|feeds| - 1 - (|feeds| - 1));
      } else if before < |front| {
        var k :| 0 <= k < |front| && before == front[k].length + (|front| - 1 - k);
        assert |Run(feeds)| == feeds[k].length + (|feeds| - 1 - k);
      }
    }
  }

  // With a constant length it is the last `length` samples.
  lemma {:induction false} ConstantRun<T>(feeds: seq<Feed<T>>, length: nat)
    requires length > 0
    requires forall i :: 0 <= i < |feeds| ==> feeds[i].length == length
    ensures Run(feeds) == Last(Samples(feeds), length)
  {
    RunIsSuffix(feeds);
    RunRetains(feeds);
    hide Run, Samples, Last;
  }

  // ---------------------------------------------------------------------
  // Results
  // ---------------------------------------------------------------------

  // A window counts only when it is full and has no gap.
  predicate Complete<T>(window: seq<Option<T>>, length: nat) {
    |window| >= length && forall i :: 0 <= i < |window| ==> window[i].Some?
  }

  function Present<T>(window: seq<Option<T>>): (r: seq<T>)
    requires Complete(window, 0)
    ensures |r| == |window|
    ensures forall i :: 0 <= i < |window| ==> window[i] == Some(r[i])
  {
    seq(|window|, i requires 0 <= i < |window| => window[i].value)
  }

  datatype Statistic = Average | Highest | Lowest | Spread | AbsoluteDeviation

  function Compute(statistic: Statistic, xs: seq<real>): real
    requires xs != []
  {
    match statistic
    case Average => Mean(xs)
    case Highest => Extremum(true, xs)
    case Lowest => Extremum(false, xs)
    case Spread => Variance(xs)
    case AbsoluteDeviation => Deviation(xs)
  }

  function Extremum(maximum: bool, xs: seq<real>): real
    requires xs != []
  {
    match Extreme(maximum, xs)
    case Some(x) => x
    case None => xs[0]
  }

  function WindowOutput(statistic: Statistic, window: seq<Sample>, length: nat): Sample
    requires length > 0
  {
    if Complete(window, length) then Some(Compute(statistic, Present(window))) else None
  }

  // What the builtin promises, on the whole history: the statistic of the last
  // `length` samples, when there are that many and none is missing.
  ghost function Promised(statistic: Statistic, history: seq<Sample>, length: nat): Sample
    requires length > 0
  {
    WindowOutput(statistic, Last(history, length), length)
  }

  function Squares(xs: seq<real>): (r: seq<real>)
    ensures |r| == |xs| && forall i :: 0 <= i < |r| ==> r[i] == Square(xs[i])
  {
    seq(|xs|, i requires 0 <= i < |xs| => Square(xs[i]))
  }

  // What each statistic of the numbers `xs` is, without division.
  ghost predicate IsStatistic(statistic: Statistic, xs: seq<real>, x: real)
    requires xs != []
  {
    var n := |xs| as real;
    match statistic
    case Average => Times(n, x) == Sum(xs)
    case Highest => IsExtreme(true, xs, x)
    case Lowest => IsExtreme(false, xs, x)
    case Spread => Times(n, Times(n, x)) + Square(Sum(xs)) == Times(n, Sum(Squares(xs)))
    case AbsoluteDeviation => Times(n, Times(n, x)) == Sum(Distances(Multiplied(xs, n), Sum(xs)))
  }

  lemma StatisticIsExact(statistic: Statistic, xs: seq<real>, x: real)
    requires xs != []
    ensures Compute(statistic, xs) == x <==> IsStatistic(statistic, xs, x)
  {
    hide Times, Mean, Variance, Deviation, Sum, Distances, Multiplied, Squares, Square, IsExtreme, Extreme;
    match statistic
    case Average => AverageIsExact(xs, x);
    case Highest => ExtremeIsUnique(true, xs, x); ExtremeIsExtreme(true, xs);
    case Lowest => ExtremeIsUnique(false, xs, x); ExtremeIsExtreme(false, xs);
    case Spread => SpreadIsExact(xs, x);
    case AbsoluteDeviation => AbsoluteDeviationIsExact(xs, x);
  }

  lemma AverageIsExact(xs: seq<real>, x: real)
    requires xs != []
    ensures Mean(xs) == x <==> Times(|xs| as real, x) == Sum(xs)
  {
    hide Sum, Mean;
    MeanIsBalanced(xs);
    if Times(|xs| as real, x) == Sum(xs) {
      SameQuotient(Mean(xs), x, |xs| as real, Sum(xs));
    }
  }

  lemma SpreadIsExact(xs: seq<real>, x: real)
    requires xs != []
    ensures Variance(xs) == x
       <==> Times(|xs| as real, Times(|xs| as real, x)) + Square(Sum(xs)) == Times(|xs| as real, Sum(Squares(xs)))
  {
    hide Sum, Variance, Squares, Square, Times;
    VarianceIsSpread(xs);
    OnlyOne(|xs| as real, Variance(xs), x);
  }

  lemma VarianceIsSpread(xs: seq<real>)
    requires xs != []
    ensures Times(|xs| as real, Times(|xs| as real, Variance(xs))) + Square(Sum(xs)) == Times(|xs| as real, Sum(Squares(xs)))
  {
    hide Sum, Variance, Mean, Squares, SumOfSquares, Square, Times;
    AverageIsExact(xs, Mean(xs));
    VarianceIsExact(xs, Squares(xs), 0.0);
    WithoutQuotient(|xs| as real, Variance(xs), Mean(xs), Sum(xs), Sum(Squares(xs)));
  }

  lemma WithoutQuotient(n: real, v: real, m: real, s: real, q: real)
    requires Times(n, m) == s && Times(n, v) + Times(m, s) == q
    ensures Times(n, Times(n, v)) + Square(s) == Times(n, q)
  {
    assert n * (m * s) == (m * n) * s;
  }

  lemma OnlyOne(n: real, a: real, b: real)
    requires n > 0.0
    ensures Times(n, Times(n, b)) == Times(n, Times(n, a)) <==> a == b
  {
    hide Times;
    CancelTimes(n, Times(n, b), Times(n, a));
    CancelTimes(n, b, a);
  }

  lemma CancelTimes(n: real, a: real, b: real)
    requires n > 0.0
    ensures Times(n, a) == Times(n, b) <==> a == b
  {
    if n * a == n * b {
      SameQuotient(a, b, n, n * a);
    }
  }

  lemma AbsoluteDeviationIsExact(xs: seq<real>, x: real)
    requires xs != []
    ensures Deviation(xs) == x
       <==> Times(|xs| as real, Times(|xs| as real, x)) == Sum(Distances(Multiplied(xs, |xs| as real), Sum(xs)))
  {
    hide Sum, Deviation, Mean, Distances, Multiplied, Abs, Times;
    var n, m := |xs| as real, Mean(xs);
    assert Abs(n) == n && Times(n, m) == Sum(xs) by {
      Magnitude(n);
      AverageIsExact(xs, m);
    }
    MultipliedDistances(xs, m, n);
    SumOfMultiplied(Distances(xs, m), n);
    DeviationIsExact(xs, 0.0, 1.0);
    Exchanged(Deviation(xs), n, Sum(Distances(xs, m)));
    OnlyOne(n, Deviation(xs), x);
  }

  lemma Exchanged(a: real, n: real, total: real)
    requires a * n == total
    ensures Times(n, a) == total
  {
  }

  lemma Magnitude(x: real)
    requires x >= 0.0
    ensures Abs(x) == x
  {
  }

  // The last samples of the history are all there, and are these numbers.
  ghost predicate EndsWith(history: seq<Sample>, xs: seq<real>) {
    |xs| <= |history| && forall i :: 0 <= i < |xs| ==> history[|history| - |xs| + i] == Some(xs[i])
  }

  // The promise is made exactly when the last `length` samples are all there,
  // and is then their statistic.
  lemma PromisedIsExact(statistic: Statistic, history: seq<Sample>, length: nat, xs: seq<real>)
    requires length > 0
    ensures Promised(statistic, history, length).Some?
       <==> |history| >= length && forall i :: |history| - length <= i < |history| ==> history[i].Some?
    ensures |xs| == length && EndsWith(history, xs) ==>
              Promised(statistic, history, length).Some?
              && IsStatistic(statistic, xs, Promised(statistic, history, length).value)
  {
    hide Compute, IsStatistic;
    var window := Last(history, length);
    if |history| >= length {
      var start := |history| - length;
      assert forall i :: 0 <= i < length ==> window[i] == history[start + i];
      assert forall i :: start <= i < |history| ==> history[i] == window[i - start];
      if |xs| == length && EndsWith(history, xs) {
        assert forall i :: 0 <= i < length ==> window[i] == Some(xs[i]);
        assert Present(window) == xs;
        StatisticIsExact(statistic, xs, Compute(statistic, xs));
      }
    }
  }

  // For a constant length the output is the promised one on every bar.
  lemma {:induction false} OutputIsPromised(statistic: Statistic, feeds: seq<Feed<real>>, length: nat)
    requires length > 0
    requires forall i :: 0 <= i < |feeds| ==> feeds[i].length == length
    ensures WindowOutput(statistic, Run(feeds), length) == Promised(statistic, Samples(feeds), length)
    ensures forall xs :: |xs| == length && EndsWith(Samples(feeds), xs) ==>
              var output := WindowOutput(statistic, Run(feeds), length);
              output.Some? && IsStatistic(statistic, xs, output.value)
  {
    ConstantRun(feeds, length);
    hide WindowOutput, IsStatistic, Run, Samples, EndsWith;
    forall xs | |xs| == length && EndsWith(Samples(feeds), xs)
      ensures Promised(statistic, Samples(feeds), length).Some?
              && IsStatistic(statistic, xs, Promised(statistic, Samples(feeds), length).value)
    {
      PromisedIsExact(statistic, Samples(feeds), length, xs);
    }
  }

  ghost predicate NoneTooShort<T>(feeds: seq<Feed<T>>, length: nat) {
    forall k :: 0 <= k < |feeds| ==> feeds[k].length + (|feeds| - 1 - k) >= length
  }

  // When lengths vary, it is the promised one exactly when no recent call used
  // too short a window; otherwise it is missing, never wrong.
  lemma {:induction false} VaryingOutput(statistic: Statistic, feeds: seq<Feed<real>>)
    requires Positive(feeds) && feeds != []
    ensures var length := feeds[|feeds| - 1].length;
            WindowOutput(statistic, Run(feeds), length)
            == (if NoneTooShort(feeds, length) then Promised(statistic, Samples(feeds), length) else None)
  {
    RunIsSuffix(feeds);
    RunRetains(feeds);
    hide Run, Samples, Compute, Last;
    var length := feeds[|feeds| - 1].length;
    if |Run(feeds)| >= length {
      LastOfSuffix(Run(feeds), Samples(feeds), length);
    }
  }

  // A mean of three samples is missing right after calls with length one.
  lemma {:induction false} LongerLengthIsMissing() returns (feeds: seq<Feed<real>>)
    ensures Positive(feeds) && feeds != [] && feeds[|feeds| - 1].length == 3
    ensures WindowOutput(Average, Run(feeds), 3) == None
    ensures Promised(Average, Samples(feeds), 3) == Some(2.0)
  {
    feeds := [Feed(Some(1.0), 1), Feed(Some(2.0), 1), Feed(Some(3.0), 3)];
    hide Run, WindowOutput;
    VaryingOutput(Average, feeds);
    assert !NoneTooShort(feeds, 3) by {
      assert feeds[1].length + (|feeds| - 1 - 1) < 3;
    }
    ThreeSamples(feeds);
  }

  lemma {:induction false} ThreeSamples(feeds: seq<Feed<real>>)
    requires feeds == [Feed(Some(1.0), 1), Feed(Some(2.0), 1), Feed(Some(3.0), 3)]
    ensures Promised(Average, Samples(feeds), 3) == Some(2.0)
  {
    SamplesOf(feeds, [Some(1.0), Some(2.0), Some(3.0)]);
    assert Last(Samples(feeds), 3) == Samples(feeds);
    var xs := Present(Samples(feeds));
    assert xs == [1.0, 2.0, 3.0] && xs[..2] == [1.0, 2.0] && xs[..2][..1] == [1.0] && xs[..2][..1][..0] == [];
    assert Sum([1.0]) == 1.0 && Sum([1.0, 2.0]) == 3.0 && Sum(xs) == 6.0;
  }

  // All windowed builtins are defined on the same bars, and ordered there.
  lemma OutputsAreOrdered(window: seq<Sample>, length: nat)
    requires length > 0
    ensures Complete(window, length) ==>
              var lowest, average := WindowOutput(Lowest, window, length), WindowOutput(Average, window, length);
              var highest, spread := WindowOutput(Highest, window, length), WindowOutput(Spread, window, length);
              var deviation := WindowOutput(AbsoluteDeviation, window, length);
              && lowest.Some? && average.Some? && highest.Some? && spread.Some? && deviation.Some?
              && lowest.value <= average.value <= highest.value
              && 0.0 <= deviation.value && deviation.value * deviation.value <= spread.value
  {
    if Complete(window, length) {
      var xs := Present(window);
      LowestMeanHighest(xs);
      DeviationWithinStdev(xs);
    }
  }

  // ---------------------------------------------------------------------
  // Pivots
  // ---------------------------------------------------------------------

  function PivotOutput(maximum: bool, values: seq<Sample>, left: nat, right: nat): Sample {
    var length := left + right + 1;
    if |values| < length then None
    else
      var candidate := values[|values| - 1 - right];
      var window := Last(values, length);
      if candidate == None || !Complete(window, length) then None
      else if candidate == Extreme(maximum, Present(window)) then candidate
      else None
  }

  // The promise, on the whole history: the sample `right` bars ago, when it is
  // an extreme of the last `left + right + 1` samples and none of them is missing.
  ghost function PromisedPivot(maximum: bool, history: seq<Sample>, left: nat, right: nat): Sample {
    var length := left + right + 1;
    if |history| < length then None
    else
      var candidate := history[|history| - 1 - right];
      var window := Last(history, length);
      if Complete(window, length) && IsExtreme(maximum, Present(window), candidate.value) then candidate else None
  }

  datatype PivotFeed = PivotFeed(sample: Sample, left: nat, right: nat)

  function Legs(feed: PivotFeed): nat { feed.left + feed.right + 1 }

  // What a run retains: with `fixedWindow`, the legs of each call, otherwise
  // `retained` samples whatever the legs.
  function Retention(feeds: seq<PivotFeed>, fixedWindow: bool, retained: nat): (r: seq<Feed<real>>)
    ensures |r| == |feeds|
    ensures forall i :: 0 <= i < |feeds| ==>
              r[i] == Feed(feeds[i].sample, if fixedWindow then Legs(feeds[i]) else retained)
  {
    seq(|feeds|, i requires 0 <= i < |feeds| =>
      Feed(feeds[i].sample, if fixedWindow then Legs(feeds[i]) else retained))
  }

  function PivotSamples(feeds: seq<PivotFeed>): (r: seq<Sample>)
    ensures |r| == |feeds|
    ensures forall i :: 0 <= i < |feeds| ==> r[i] == feeds[i].sample
  {
    seq(|feeds|, i requires 0 <= i < |feeds| => feeds[i].sample)
  }

  // A deque that holds the legs, or all there is, decides like the history.
  lemma {:induction false} SuffixDecidesPivot(maximum: bool, values: seq<Sample>, history: seq<Sample>, left: nat, right: nat)
    requires IsSuffix(values, history)
    requires |values| >= left + right + 1 || |values| == |history|
    ensures PivotOutput(maximum, values, left, right) == PromisedPivot(maximum, history, left, right)
  {
    hide Last;
    var length := left + right + 1;
    if |values| >= length {
      LastOfSuffix(values, history, length);
      var window := Last(history, length);
      if Complete(window, length) {
        assert window[left] == history[|history| - 1 - right];
        ExtremeIsUnique(maximum, Present(window), history[|history| - 1 - right].value);
      }
    }
  }

  lemma {:induction false} SamplesOf(feeds: seq<Feed<real>>, samples: seq<Sample>)
    requires |feeds| == |samples|
    requires forall i :: 0 <= i < |feeds| ==> feeds[i].sample == samples[i]
    ensures Samples(feeds) == samples
  {
    if feeds != [] {
      var last := |feeds| - 1;
      SamplesOf(feeds[..last], samples[..last]);
      assert samples == samples[..last] + [samples[last]];
    }
  }

  // However many samples each call retains, at least its own legs, the pivot is
  // the promised one exactly while no recent call retained too few for the last
  // one; otherwise it is missing, never wrong.
  lemma {:induction false} PivotIsPromised(maximum: bool, feeds: seq<Feed<real>>, left: nat, right: nat)
    requires Positive(feeds) && feeds != []
    ensures PivotOutput(maximum, Run(feeds), left, right)
         == (if NoneTooShort(feeds, left + right + 1) then PromisedPivot(maximum, Samples(feeds), left, right) else None)
  {
    RunIsSuffix(feeds);
    RunRetains(feeds);
    hide Run, Samples, PromisedPivot, Last;
    var length := left + right + 1;
    if |Run(feeds)| >= length || |Run(feeds)| == |feeds| {
      SuffixDecidesPivot(maximum, Run(feeds), Samples(feeds), left, right);
    }
    if |Run(feeds)| == |feeds| < length && !NoneTooShort(feeds, length) {
      ShortHistoryHasNoPivot(maximum, Samples(feeds), left, right);
    }
  }

  lemma ShortHistoryHasNoPivot(maximum: bool, history: seq<Sample>, left: nat, right: nat)
    requires |history| < left + right + 1
    ensures PromisedPivot(maximum, history, left, right) == None
  {
  }

  // Retaining the limit gives the promised pivot on every bar, even when the
  // legs change from bar to bar.
  lemma {:induction false} RetainedPivotIsPromised(maximum: bool, feeds: seq<PivotFeed>, retained: nat)
    requires feeds != []
    requires forall i :: 0 <= i < |feeds| ==> Legs(feeds[i]) <= retained
    ensures var last := feeds[|feeds| - 1];
            PivotOutput(maximum, Run(Retention(feeds, false, retained)), last.left, last.right)
            == PromisedPivot(maximum, PivotSamples(feeds), last.left, last.right)
  {
    hide Run, PivotOutput, PromisedPivot;
    var (kept, last) := (Retention(feeds, false, retained), feeds[|feeds| - 1]);
    SamplesOf(kept, PivotSamples(feeds));
    assert Positive(kept) by { assert Legs(feeds[0]) > 0; }
    PivotIsPromised(maximum, kept, last.left, last.right);
  }

  // Retaining only the legs gives the same while no recent call had shorter
  // ones; otherwise it reports no pivot, never a wrong one.
  lemma {:induction false} FixedPivotIsPromised(maximum: bool, feeds: seq<PivotFeed>)
    requires feeds != []
    ensures var last := feeds[|feeds| - 1];
            var kept := Retention(feeds, true, 0);
            PivotOutput(maximum, Run(kept), last.left, last.right)
            == (if NoneTooShort(kept, Legs(last)) then PromisedPivot(maximum, PivotSamples(feeds), last.left, last.right) else None)
  {
    hide Run, PivotOutput, PromisedPivot;
    var (kept, last) := (Retention(feeds, true, 0), feeds[|feeds| - 1]);
    SamplesOf(kept, PivotSamples(feeds));
    PivotIsPromised(maximum, kept, last.left, last.right);
  }

  // With longer legs than before, the fixed window misses a pivot.
  lemma {:induction false} FixedWindowMissesPivot() returns (feeds: seq<PivotFeed>)
    ensures feeds != [] && feeds[|feeds| - 1].left == feeds[|feeds| - 1].right == 2
    ensures PivotOutput(true, Run(Retention(feeds, true, 0)), 2, 2) == None
    ensures PromisedPivot(true, PivotSamples(feeds), 2, 2) == Some(1.0)
  {
    var low, high := PivotFeed(Some(0.0), 1, 1), PivotFeed(Some(1.0), 1, 1);
    feeds := [low, low, high, low, PivotFeed(Some(0.0), 2, 2)];
    hide Run, PivotOutput, Last;
    FixedPivotIsPromised(true, feeds);
    var kept := Retention(feeds, true, 0);
    assert !NoneTooShort(kept, 5) by {
      assert kept[3].length + (|kept| - 1 - 3) < 5;
    }
    var history := PivotSamples(feeds);
    assert Last(history, 5) == history;
    var xs := Present(history);
    assert xs == [0.0, 0.0, 1.0, 0.0, 0.0];
    assert IsExtreme(true, xs, 1.0) by {
      assert xs[2] == 1.0;
    }
  }

  // With constant legs the two retention policies agree bar by bar.
  lemma {:induction false} FixedWindowAgrees(maximum: bool, feeds: seq<PivotFeed>, left: nat, right: nat, retained: nat)
    requires feeds != [] && left + right + 1 <= retained
    requires forall i :: 0 <= i < |feeds| ==> feeds[i].left == left && feeds[i].right == right
    ensures PivotOutput(maximum, Run(Retention(feeds, true, retained)), left, right)
         == PivotOutput(maximum, Run(Retention(feeds, false, retained)), left, right)
  {
    RetainedPivotIsPromised(maximum, feeds, retained);
    FixedPivotIsPromised(maximum, feeds);
    assert Retention(feeds, true, 0) == Retention(feeds, true, retained);
  }

  // ---------------------------------------------------------------------
  // Bars since the extreme
  // ---------------------------------------------------------------------

  datatype Bar = Bar(value: real, index: nat)

  predicate Better(maximum: bool, candidate: Bar, best: Bar) {
    if maximum then candidate.value > best.value else candidate.value < best.value
  }

  function OldestBest(maximum: bool, bars: seq<Bar>): Bar
    requires bars != []
  {
    if |bars| == 1 then bars[0]
    else
      var best, candidate := OldestBest(maximum, bars[..|bars| - 1]), bars[|bars| - 1];
      if Better(maximum, candidate, best) then candidate else best
  }

  function BarsOutput(maximum: bool, values: seq<Option<Bar>>, length: nat, barIndex: nat): Option<int>
    requires length > 0
  {
    if Complete(values, length) then Some(barIndex - OldestBest(maximum, Present(values)).index) else None
  }

  // The calls of a run on consecutive bars, the first at bar `first`.
  function Stamp(feeds: seq<Feed<real>>, first: nat): (r: seq<Feed<Bar>>)
    ensures |r| == |feeds|
    ensures forall i :: 0 <= i < |feeds| ==> r[i] == Feed(StampSample(feeds[i].sample, first + i), feeds[i].length)
  {
    seq(|feeds|, i requires 0 <= i < |feeds| => Feed(StampSample(feeds[i].sample, first + i), feeds[i].length))
  }

  function StampSample(sample: Sample, index: nat): Option<Bar> {
    match sample
    case None => None
    case Some(value) => Some(Bar(value, index))
  }

  ghost predicate Stamped(plain: seq<Sample>, stamped: seq<Option<Bar>>, base: nat) {
    && |stamped| == |plain|
    && forall i :: 0 <= i < |plain| ==> stamped[i] == StampSample(plain[i], base + i)
  }

  lemma StampedLast(plain: seq<Sample>, stamped: seq<Option<Bar>>, base: nat, n: nat)
    requires Stamped(plain, stamped, base)
    ensures Stamped(Last(plain, n), Last(stamped, n), base + |plain| - |Last(plain, n)|)
  {
    hide Last;
    var p, s := Last(plain, n), Last(stamped, n);
    forall i | 0 <= i < |p| ensures s[i] == StampSample(p[i], base + |plain| - |p| + i) {
      var j := |plain| - |p| + i;
      assert p[i] == plain[j] && s[i] == stamped[j];
    }
  }

  lemma {:induction false} StampedRun(feeds: seq<Feed<real>>, first: nat)
    ensures |Run(feeds)| <= |feeds|
    ensures Stamped(Run(feeds), Run(Stamp(feeds, first)), first + |feeds| - |Run(feeds)|)
  {
    if feeds != [] {
      var front, last := feeds[..|feeds| - 1], feeds[|feeds| - 1];
      StampedRun(front, first);
      assert Stamp(feeds, first)[..|feeds| - 1] == Stamp(front, first);
      hide Last;
      StampedLast(Run(front) + [last.sample],
                  Run(Stamp(front, first)) + [StampSample(last.sample, first + |front|)],
                  first + |front| - |Run(front)|, last.length);
    }
  }

  lemma {:induction false} OldestBestIsOldest(maximum: bool, bars: seq<Bar>) returns (at: nat)
    requires bars != []
    ensures at < |bars| && bars[at] == OldestBest(maximum, bars)
    ensures forall i :: 0 <= i < |bars| ==> !Better(maximum, bars[i], bars[at])
    ensures forall i :: 0 <= i < at ==> Better(maximum, bars[at], bars[i])
  {
    if |bars| == 1 {
      at := 0;
    } else {
      var before := OldestBestIsOldest(maximum, bars[..|bars| - 1]);
      at := if Better(maximum, bars[|bars| - 1], bars[before]) then |bars| - 1 else before;
    }
  }

  lemma {:induction false} OffsetOfBars(maximum: bool, bars: seq<Bar>, xs: seq<real>, base: nat)
    requires |bars| == |xs| > 0
    requires forall i :: 0 <= i < |xs| ==> bars[i] == Bar(xs[i], base + i)
    ensures var at := OldestBest(maximum, bars).index - base;
            && 0 <= at < |xs|
            && Extreme(maximum, xs) == Some(xs[at])
            && forall i :: 0 <= i < at ==> xs[i] != xs[at]
  {
    var at := OldestBestIsOldest(maximum, bars);
    hide OldestBest, Extreme;
    assert forall i :: 0 <= i < |xs| ==> !Better(maximum, bars[i], bars[at]) && bars[i].value == xs[i];
    assert IsExtreme(maximum, xs, xs[at]);
    ExtremeIsUnique(maximum, xs, xs[at]);
    forall i | 0 <= i < at ensures xs[i] != xs[at] {
      assert Better(maximum, bars[at], bars[i]);
    }
  }

  // On consecutive bars the reported offset stays inside the window, its bar
  // attains the value `ta.highest` or `ta.lowest` reports on the same history,
  // and no older bar of the window does.
  lemma {:induction false} OffsetFindsExtreme(maximum: bool, feeds: seq<Feed<real>>, first: nat)
    requires feeds != [] && Positive(feeds)
    ensures var length := feeds[|feeds| - 1].length;
            var window := Run(feeds);
            var offset := BarsOutput(maximum, Run(Stamp(feeds, first)), length, first + |feeds| - 1);
            var extreme := WindowOutput(if maximum then Highest else Lowest, window, length);
            && (offset.Some? <==> extreme.Some?)
            && (offset.Some? ==>
                  && |window| == length
                  && 0 <= offset.value < length
                  && window[length - 1 - offset.value] == extreme
                  && forall i :: 0 <= i < length - 1 - offset.value ==> window[i] != extreme)
  {
    hide Run, Stamp;
    var window := Run(feeds);
    StampedRun(feeds, first);
    RunRetains(feeds);
    OffsetInWindow(maximum, window, Run(Stamp(feeds, first)), feeds[|feeds| - 1].length, first + |feeds| - |window|);
  }

  lemma OffsetInWindow(maximum: bool, window: seq<Sample>, stamped: seq<Option<Bar>>, length: nat, base: nat)
    requires 0 < |window| <= length && Stamped(window, stamped, base)
    ensures var offset := BarsOutput(maximum, stamped, length, base + |window| - 1);
            var extreme := WindowOutput(if maximum then Highest else Lowest, window, length);
            && (offset.Some? <==> extreme.Some?)
            && (offset.Some? ==>
                  && |window| == length
                  && 0 <= offset.value < length
                  && window[length - 1 - offset.value] == extreme
                  && forall i :: 0 <= i < length - 1 - offset.value ==> window[i] != extreme)
  {
    StampedWindow(window, stamped, base);
    hide OldestBest, Extreme, Stamped;
    if Complete(window, length) {
      OffsetOfBars(maximum, Present(stamped), Present(window), base);
    }
  }

  lemma StampedWindow(window: seq<Sample>, stamped: seq<Option<Bar>>, base: nat)
    requires Stamped(window, stamped, base)
    ensures forall length: nat :: Complete(stamped, length) <==> Complete(window, length)
    ensures Complete(window, 0) ==>
              forall i :: 0 <= i < |window| ==> Present(stamped)[i] == Bar(Present(window)[i], base + i)
  {
    if i :| 0 <= i < |window| && window[i] == None {
      assert stamped[i] == None;
    }
  }
}
