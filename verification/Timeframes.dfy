/** Timeframes and their lengths (exchange/src/lib.rs). */
module Timeframes {

  datatype Timeframe =
    | MS100 | MS200 | MS300 | MS500 | MS1000
    | M1 | M3 | M5 | M15 | M30 | H1 | H2 | H4 | H12 | D1

  function Milliseconds(timeframe: Timeframe): (r: nat)
    ensures r > 0
  {
    match timeframe
    case MS100 => 100
    case MS200 => 200
    case MS300 => 300
    case MS500 => 500
    case MS1000 => 1_000
    case M1 => 60_000
    case M3 => 180_000
    case M5 => 300_000
    case M15 => 900_000
    case M30 => 1_800_000
    case H1 => 3_600_000
    case H2 => 7_200_000
    case H4 => 14_400_000
    case H12 => 43_200_000
    case D1 => 86_400_000
  }

  // Its place in the declaration, which the derived order follows.
  function Rank(timeframe: Timeframe): nat {
    match timeframe
    case MS100 => 0
    case MS200 => 1
    case MS300 => 2
    case MS500 => 3
    case MS1000 => 4
    case M1 => 5
    case M3 => 6
    case M5 => 7
    case M15 => 8
    case M30 => 9
    case H1 => 10
    case H2 => 11
    case H4 => 12
    case H12 => 13
    case D1 => 14
  }

  lemma RankOrdersLengths(a: Timeframe, b: Timeframe)
    ensures Rank(a) < Rank(b) <==> Milliseconds(a) < Milliseconds(b)
    ensures Rank(a) == Rank(b) <==> a == b
  {
  }
}
