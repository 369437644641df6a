/**
 Comparison of integers and floats (indicator-engine/src/types.rs). A finite
 float is the real number it represents; an infinity or NaN is `NonFinite`.
 */
module NumericOrder {
  import opened Basics
  import opened Values

  datatype Ordering = Less | Equal | Greater

  datatype Comparison = LessThan | AtMost | GreaterThan | AtLeast | EqualTo | NotEqualTo

  function Reverse(o: Ordering): Ordering {
    match o
    case Less => Greater
    case Equal => Equal
    case Greater => Less
  }

  function CompareInts(a: int, b: int): Ordering {
    if a < b then Less else if a == b then Equal else Greater
  }

  function CompareReals(a: real, b: real): Ordering {
    if a < b then Less else if a == b then Equal else Greater
  }

  // `float as i64` for a float within range, which drops the fraction.
  function Truncate(r: real): int {
    if r >= 0.0 then r.Floor else -((-r).Floor)
  }

  function Fract(r: real): real { r - Truncate(r) as real }

  function CompareIntegerFloat(integer: int, float: Number): Option<Ordering> {
    if float.NonFinite? then None
    else if float.r < I64_MIN as real then Some(Greater)
    else if float.r >= -(I64_MIN as real) then Some(Less)
    else
      var order := CompareInts(integer, Truncate(float.r));
      if order == Equal then Some(CompareReals(0.0, Fract(float.r))) else Some(order)
  }

  function NumericCompare(left: Value, right: Value): Option<Ordering> {
    match (left, right)
    case (Int(a), Int(b)) => Some(CompareInts(a, b))
    case (Float(a), Float(b)) =>
      if a.Finite? && b.Finite? then Some(CompareReals(a.r, b.r)) else None
    case (Int(a), Float(b)) => CompareIntegerFloat(a, b)
    case (Float(a), Int(b)) =>
      (match CompareIntegerFloat(b, a)
       case Some(order) => Some(Reverse(order))
       case None => None)
    case _ => None
  }

  // `equals` on two numbers; what it does on other values is not modelled.
  function NumbersEqual(left: Value, right: Value): Option<bool>
    requires (left.Int? || left.Float?) && (right.Int? || right.Float?)
  {
    match NumericCompare(left, right)
    case Some(order) => Some(order == Equal)
    case None => None
  }

  function Binary(operator: Comparison, left: Value, right: Value): Value
    requires (left.Int? || left.Float?) && (right.Int? || right.Float?)
  {
    match operator
    case EqualTo => (match NumbersEqual(left, right) case Some(equal) => Bool(equal) case None => Na)
    case NotEqualTo => (match NumbersEqual(left, right) case Some(equal) => Bool(!equal) case None => Na)
    case _ =>
      (match NumericCompare(left, right)
       case None => Na
       case Some(order) =>
         Bool(match operator
              case LessThan => order == Less
              case AtMost => order != Greater
              case GreaterThan => order == Greater
              case _ => order != Less))
  }

  // A machine integer or a finite float.
  ghost predicate IsNumber(v: Value) {
    (v.Int? && I64_MIN <= v.i <= I64_MAX) || (v.Float? && v.f.Finite?)
  }

  // The number a value represents.
  ghost function Magnitude(v: Value): real
    requires IsNumber(v)
  {
    if v.Int? then v.i as real else v.f.r
  }

  // Comparison is the order of the represented numbers, and is missing
  // exactly when an operand is not a number.
  lemma CompareIsOrder(left: Value, right: Value)
    requires left.Int? ==> IsNumber(left)
    requires right.Int? ==> IsNumber(right)
    ensures NumericCompare(left, right)
         == if IsNumber(left) && IsNumber(right) then Some(CompareReals(Magnitude(left), Magnitude(right))) else None
  {
  }

  // Hence a total order up to equality of the represented numbers.
  lemma CompareIsTotalOrder(a: Value, b: Value, c: Value)
    requires IsNumber(a) && IsNumber(b) && IsNumber(c)
    ensures NumericCompare(a, b).Some?
    ensures NumericCompare(a, a) == Some(Equal)
    ensures NumericCompare(b, a) == Some(Reverse(NumericCompare(a, b).value))
    ensures NumericCompare(a, b) == Some(Less) && NumericCompare(b, c) != Some(Greater) ==> NumericCompare(a, c) == Some(Less)
    ensures NumericCompare(a, b) == Some(Equal) ==> NumericCompare(a, c) == NumericCompare(b, c)
  {
    CompareIsOrder(a, a);
    CompareIsOrder(a, b);
    CompareIsOrder(b, a);
    CompareIsOrder(b, c);
    CompareIsOrder(a, c);
  }

  // The six operators and `equals` agree with that order.
  lemma OperatorsFollowOrder(left: Value, right: Value)
    requires IsNumber(left) && IsNumber(right)
    ensures var x, y := Magnitude(left), Magnitude(right);
            && Binary(LessThan, left, right) == Bool(x < y)
            && Binary(AtMost, left, right) == Bool(x <= y)
            && Binary(GreaterThan, left, right) == Bool(x > y)
            && Binary(AtLeast, left, right) == Bool(x >= y)
            && Binary(EqualTo, left, right) == Bool(x == y)
            && Binary(NotEqualTo, left, right) == Bool(x != y)
            && NumbersEqual(left, right) == Some(x == y)
  {
    CompareIsOrder(left, right);
  }
}
