/**
 * Additive secret sharing of integer feature vectors (`split_into_shares`) and the
 * share-wise arithmetic that the servers and the client perform on them.
 */
module Shares {

  type Vector = seq<int>

  function Add(a: Vector, b: Vector): Vector
    requires |a| == |b|
  {
    seq(|a|, i requires 0 <= i < |a| => a[i] + b[i])
  }

  function Sub(a: Vector, b: Vector): Vector
    requires |a| == |b|
  {
    seq(|a|, i requires 0 <= i < |a| => a[i] - b[i])
  }

  function Scale(k: int, a: Vector): Vector
  {
    seq(|a|, i requires 0 <= i < |a| => k * a[i])
  }

  /** `np.sum(d ** 2)`. */
  function SumSq(d: Vector): (r: int)
    ensures 0 <= r
  {
    if d == [] then 0 else d[0] * d[0] + SumSq(d[1..])
  }

  /**
   * `split_into_shares`, with the random share `s2` drawn by the caller: the first
   * share is `v - s2`, and the two shares add up to `v` exactly.
   */
  function Split(v: Vector, s2: Vector): (shares: (Vector, Vector))
    requires |s2| == |v|
    ensures |shares.0| == |v| && shares.1 == s2
    ensures Add(shares.0, shares.1) == v
  {
    (Sub(v, s2), s2)
  }

  /**
   * `np.random.rand(*shape)`: a vector of the requested length. Callers rely on
   * nothing but its length, so every property proved for them holds whatever
   * values are drawn.
   */
  method RandomShare(n: nat) returns (s: Vector)
    ensures |s| == n
  {
    s := seq(n, _ => 0);
  }

  /** Share-wise differences recombine: (t1 - p1) + (t2 - p2) == (t1 + t2) - (p1 + p2). */
  lemma Recombination(t1: Vector, t2: Vector, p1: Vector, p2: Vector)
    requires |t1| == |t2| == |p1| == |p2|
    ensures Add(Sub(t1, p1), Sub(t2, p2)) == Sub(Add(t1, t2), Add(p1, p2))
  {
  }

  /**
   * The distance computed from shares (`compare_samples` without the final square
   * root, and the secret-shared computation of spit_db_test.py): the probe is
   * split with `s2`, each template share has the matching probe share subtracted,
   * and the differences are added and squared.
   */
  function SharedSquaredDistance(t1: Vector, t2: Vector, probe: Vector, s2: Vector): (d: int)
    requires |t1| == |t2| == |probe| == |s2|
    ensures d == SumSq(Sub(Add(t1, t2), probe))
  {
    var (p1, p2) := Split(probe, s2);
    Recombination(t1, t2, p1, p2);
    SumSq(Add(Sub(t1, p1), Sub(t2, p2)))
  }

  /** The squared distance is zero exactly when every component is zero. */
  lemma {:induction false} SumSqZeroIff(d: Vector)
    ensures SumSq(d) == 0 <==> forall i :: 0 <= i < |d| ==> d[i] == 0
  {
    if d != [] {
      SumSqZeroIff(d[1..]);
      assert forall i :: 1 <= i < |d| ==> d[i] == d[1..][i - 1];
      if d[0] != 0 {
        assert d[0] * d[0] > 0;
      }
    }
  }

  /** Scaling a vector by k scales its squared norm by k * k. */
  lemma {:induction false} SumSqScale(k: int, d: Vector)
    ensures SumSq(Scale(k, d)) == k * k * SumSq(d)
  {
    if d != [] {
      assert Scale(k, d)[1..] == Scale(k, d[1..]);
      SumSqScale(k, d[1..]);
      assert (k * d[0]) * (k * d[0]) == k * k * (d[0] * d[0]);
    }
  }

  /**
   * The shared distance is zero exactly when the reconstructed template
   * `t1 + t2` equals the probe, whatever random share split the probe.
   */
  lemma SharedDistanceZeroIff(t1: Vector, t2: Vector, probe: Vector, s2: Vector)
    requires |t1| == |t2| == |probe| == |s2|
    ensures SharedSquaredDistance(t1, t2, probe, s2) == 0 <==> Add(t1, t2) == probe
  {
    var d := Sub(Add(t1, t2), probe);
    SumSqZeroIff(d);
    if SumSq(d) == 0 {
      assert forall i :: 0 <= i < |probe| ==> Add(t1, t2)[i] == probe[i] by {
        forall i | 0 <= i < |probe| ensures Add(t1, t2)[i] == probe[i] {
          assert d[i] == 0;
        }
      }
    }
  }
}
