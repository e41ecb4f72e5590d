/**
 * The client's final computation (client.py, after both sessions): the two
 * partial differences are added, the squared distance is reduced modulo the
 * integer scheme's plaintext modulus, a Manhattan figure is taken from the sum,
 * and the distance is classified against three ascending thresholds.
 *
 * The classification in the source is on `sqrt(squared distance)`; here it is
 * also given on the squared distance against squared thresholds, and
 * `ClassifyBySquare` shows the two agree.
 */
module Combiner {
  import opened Shares

  /** PLAIN_MODULUS of the integer (BFV) scheme. */
  const PlainModulus: int := 1032193

  const Threshold1: int := 20
  const Threshold2: int := 500
  const Threshold3: int := 800

  datatype Label =
    | Identical     // "Identical fingerprints"
    | Match         // "Most definitely a match"
    | Inconclusive  // "Cannot determine, needs further investigation"
    | NoMatch       // "Not a match"

  /** The labels in order of increasing distance. */
  function Rank(l: Label): nat
  {
    match l
    case Identical => 0
    case Match => 1
    case Inconclusive => 2
    case NoMatch => 3
  }

  /** The if/elif chain on the Euclidean distance; each bound is inclusive. */
  function Classify(distance: real): (l: Label)
    ensures l == Identical <==> distance <= Threshold1 as real
    ensures l == Match <==> Threshold1 as real < distance <= Threshold2 as real
    ensures l == Inconclusive <==> Threshold2 as real < distance <= Threshold3 as real
    ensures l == NoMatch <==> Threshold3 as real < distance
  {
    if distance <= Threshold1 as real then Identical
    else if distance <= Threshold2 as real then Match
    else if distance <= Threshold3 as real then Inconclusive
    else NoMatch
  }

  /** The same chain on the squared distance, against the squared thresholds. */
  function ClassifySquared(sq: int): (l: Label)
    ensures l == Identical <==> sq <= Threshold1 * Threshold1
    ensures l == Match <==> Threshold1 * Threshold1 < sq <= Threshold2 * Threshold2
    ensures l == Inconclusive <==> Threshold2 * Threshold2 < sq <= Threshold3 * Threshold3
    ensures l == NoMatch <==> Threshold3 * Threshold3 < sq
  {
    if sq <= Threshold1 * Threshold1 then Identical
    else if sq <= Threshold2 * Threshold2 then Match
    else if sq <= Threshold3 * Threshold3 then Inconclusive
    else NoMatch
  }

  lemma SquareStrictlyMonotone(a: real, b: real)
    requires 0.0 <= b < a
    ensures b * b < a * a
  {
    assert a * a - a * b == a * (a - b);
    assert a * (a - b) > 0.0;
    assert a * b - b * b == b * (a - b);
    assert b * (a - b) >= 0.0;
  }

  /** For non-negative reals, comparing squares is comparing the numbers. */
  lemma SquareMonotone(a: real, b: real)
    requires 0.0 <= a && 0.0 <= b
    ensures a <= b <==> a * a <= b * b
  {
    if a < b {
      SquareStrictlyMonotone(b, a);
    } else if b < a {
      SquareStrictlyMonotone(a, b);
    }
  }

  /** Classifying the square root of `sq` is classifying `sq` against the squared thresholds. */
  lemma ClassifyBySquare(distance: real, sq: int)
    requires 0.0 <= distance && distance * distance == sq as real
    ensures ClassifySquared(sq) == Classify(distance)
  {
    SquareMonotone(distance, Threshold1 as real);
    SquareMonotone(distance, Threshold2 as real);
    SquareMonotone(distance, Threshold3 as real);
  }

  /** A larger distance never gets a closer label. */
  lemma ClassifyMonotone(d1: real, d2: real)
    requires d1 <= d2
    ensures Rank(Classify(d1)) <= Rank(Classify(d2))
  {
  }

  /** `Enc_squared_difference.sum().decrypt()[0] % PLAIN_MODULUS`, with the scheme's arithmetic done exactly. */
  function SquaredDistance(total: Vector): (sq: int)
    ensures 0 <= sq < PlainModulus
    ensures SumSq(total) < PlainModulus ==> sq == SumSq(total)
  {
    SumSq(total) % PlainModulus
  }

  function Sum(d: Vector): int
  {
    if d == [] then 0 else d[0] + Sum(d[1..])
  }

  lemma {:induction false} SumOfZeros(d: Vector)
    requires forall i :: 0 <= i < |d| ==> d[i] == 0
    ensures Sum(d) == 0
  {
    if d != [] {
      SumOfZeros(d[1..]);
    }
  }

  function Abs(x: int): nat
  {
    if x < 0 then -x else x
  }

  /** The Manhattan distance proper: the sum of the absolute components. */
  function SumAbs(d: Vector): nat
  {
    if d == [] then 0 else Abs(d[0]) + SumAbs(d[1..])
  }

  lemma {:induction false} SumWithinManhattan(d: Vector)
    ensures Abs(Sum(d)) <= SumAbs(d)
  {
    if d != [] {
      SumWithinManhattan(d[1..]);
    }
  }

  /**
   * `abs(Enc_total_difference.sum().decrypt()[0])`: the absolute value of the sum
   * of the components, which is never more than the true Manhattan distance.
   */
  function ManhattanFigure(total: Vector): (m: nat)
    ensures m <= SumAbs(total)
  {
    SumWithinManhattan(total);
    Abs(Sum(total))
  }

  datatype Report = Report(squaredDistance: int, manhattan: nat, verdict: Label)

  /** Adds the two partial differences and derives the figures the client prints. */
  function Finalize(r1: Vector, r2: Vector): (rep: Report)
    requires |r1| == |r2|
    ensures 0 <= rep.squaredDistance < PlainModulus
    ensures SumSq(Add(r1, r2)) < PlainModulus ==> rep.squaredDistance == SumSq(Add(r1, r2))
    ensures rep.manhattan <= SumAbs(Add(r1, r2))
    ensures rep.verdict == ClassifySquared(rep.squaredDistance)
  {
    var total := Add(r1, r2);
    var sq := SquaredDistance(total);
    Report(sq, ManhattanFigure(total), ClassifySquared(sq))
  }

  lemma {:induction false} SumSqConstant(n: nat, c: int)
    ensures SumSq(seq(n, _ => c)) == n * (c * c)
  {
    if n > 0 {
      assert seq(n, _ => c)[1..] == seq(n - 1, _ => c);
      SumSqConstant(n - 1, c);
    }
  }

  /**
   * With the probe shares scaled by 1000, the modulus is too small for the
   * distances it must carry: a combined difference of 1000 in each of 32
   * components (exact squared distance 32,000,000, Euclidean distance about
   * 5657) decrypts to 2017 and is reported as a match, where the exact value
   * would be classified "Not a match".
   */
  lemma ModulusWrapMisreports(total: Vector)
    requires total == Scale(1000, seq(32, _ => 1))
    ensures SumSq(total) == 32000000 && ClassifySquared(SumSq(total)) == NoMatch
    ensures SquaredDistance(total) == 2017 && ClassifySquared(SquaredDistance(total)) == Match
  {
    SumSqScale(1000, seq(32, _ => 1));
    SumSqConstant(32, 1);
  }
}
