/** The per-band baseline: the alert threshold a band defines and the
    exponential-moving-average update that learns from a non-event sample. */
module Baseline {
  import opened TimeBands
  import opened RealArith

  /** The smallest spread a band is allowed to learn. */
  const SigmaFloor: real := 5.0

  /** The rms level a sample must exceed to be an event in band `b`. */
  function Threshold(b: Band): real
  {
    b.mu + b.k * b.sigma
  }

  /** The EMA mean after learning `rms` with smoothing factor `alpha`. */
  function NextMu(mu: real, rms: real, alpha: real): real
  {
    (1.0 - alpha) * mu + alpha * rms
  }

  /** One learning step on a non-event sample: the mean moves toward `rms`,
      the spread follows the distance of `rms` from the NEW mean and is
      floored, the sample counter grows by one; name, boundaries and `k` are
      kept. */
  function Learn(b: Band, rms: real, alpha: real): (b': Band)
    ensures b'.mu == NextMu(b.mu, rms, alpha)
    ensures b'.sigma >= SigmaFloor
    ensures b'.sigma >= (1.0 - alpha) * b.sigma + alpha * Abs(rms - b'.mu)
    ensures b'.sigma == SigmaFloor || b'.sigma == (1.0 - alpha) * b.sigma + alpha * Abs(rms - b'.mu)
    ensures b'.samples == b.samples + 1
    ensures b'.name == b.name && b'.start == b.start && b'.end == b.end && b'.k == b.k
  {
    var mu := NextMu(b.mu, rms, alpha);
    var sigma := (1.0 - alpha) * b.sigma + alpha * Abs(rms - mu);
    b.(mu := mu, sigma := Max(SigmaFloor, sigma), samples := b.samples + 1)
  }

  /** Learn, field by field, for a caller that computes the new mean and
      the unfloored spread itself. */
  lemma LearnFields(b: Band, rms: real, alpha: real, mu: real, sigma: real)
    requires mu == (1.0 - alpha) * b.mu + alpha * rms
    requires sigma == (1.0 - alpha) * b.sigma + alpha * Abs(rms - mu)
    ensures Learn(b, rms, alpha) == b.(mu := mu, sigma := Max(SigmaFloor, sigma), samples := b.samples + 1)
  {
  }

  /** With 0 <= alpha <= 1 the new mean lies between the old mean and the
      sample, and is no farther from the sample than the old mean was. */
  lemma NextMuBetween(mu: real, rms: real, alpha: real)
    requires 0.0 <= alpha <= 1.0
    ensures mu <= rms ==> mu <= NextMu(mu, rms, alpha) <= rms
    ensures rms <= mu ==> rms <= NextMu(mu, rms, alpha) <= mu
    ensures Abs(NextMu(mu, rms, alpha) - rms) <= Abs(mu - rms)
  {
    var m := NextMu(mu, rms, alpha);
    if mu <= rms {
      Inside(mu, rms, alpha);
      assert Abs(m - rms) == rms - m && Abs(mu - rms) == rms - mu;
    } else {
      Inside(rms, mu, alpha);
      assert Abs(m - rms) == m - rms && Abs(mu - rms) == mu - rms;
    }
  }

  /** The mixing step behind NextMuBetween: a mean mixed toward either end
      of [lo, hi] stays inside it. */
  lemma Inside(lo: real, hi: real, a: real)
    requires lo <= hi && 0.0 <= a <= 1.0
    ensures lo <= NextMu(lo, hi, a) <= hi
    ensures lo <= NextMu(hi, lo, a) <= hi
  {
    var b, d := 1.0 - a, hi - lo;
    assert a * d >= 0.0 && b * d >= 0.0;
    assert NextMu(lo, hi, a) == b * lo + a * hi == lo + a * d == hi - b * d;
    assert NextMu(hi, lo, a) == b * hi + a * lo == lo + b * d == hi - a * d;
  }

  /** With 0 < alpha < 1 and a sample away from the mean, the new mean lies
      strictly between them; with alpha == 1 it is the sample itself. */
  lemma NextMuStrictlyBetween(mu: real, rms: real, alpha: real)
    requires 0.0 < alpha <= 1.0
    ensures alpha < 1.0 && mu < rms ==> mu < NextMu(mu, rms, alpha) < rms
    ensures alpha < 1.0 && rms < mu ==> rms < NextMu(mu, rms, alpha) < mu
    ensures alpha == 1.0 ==> NextMu(mu, rms, alpha) == rms
    ensures rms == mu ==> NextMu(mu, rms, alpha) == mu
  {
    var m := NextMu(mu, rms, alpha);
    assert m == (1.0 - alpha) * mu + alpha * rms;
    if alpha < 1.0 && mu < rms {
      StrictlyInside(mu, rms, alpha);
    }
    if alpha < 1.0 && rms < mu {
      StrictlyInside(rms, mu, alpha);
    }
  }

  /** The mixing step behind NextMuStrictlyBetween. */
  lemma StrictlyInside(lo: real, hi: real, a: real)
    requires lo < hi && 0.0 < a < 1.0
    ensures lo < (1.0 - a) * lo + a * hi < hi
    ensures lo < a * lo + (1.0 - a) * hi < hi
  {
    var b, d := 1.0 - a, hi - lo;
    assert a * d > 0.0 && b * d > 0.0;
    assert b * lo + a * hi == lo + a * d == hi - b * d;
    assert a * lo + b * hi == lo + b * d == hi - a * d;
  }

  /** Learning from a sample exactly at the mean leaves the mean alone and
      shrinks the spread geometrically, never below the floor. */
  lemma LearnAtMean(b: Band, alpha: real)
    requires 0.0 <= alpha <= 1.0 && b.sigma >= SigmaFloor
    ensures Learn(b, b.mu, alpha).mu == b.mu
    ensures SigmaFloor <= Learn(b, b.mu, alpha).sigma <= b.sigma
  {
    var b' := Learn(b, b.mu, alpha);
    assert NextMu(b.mu, b.mu, alpha) == b.mu;
    assert (1.0 - alpha) * b.sigma <= b.sigma;
  }

  /** Learning `n` samples in a row from the same band. */
  function LearnAll(b: Band, samples: seq<real>, alpha: real): Band
    decreases |samples|
  {
    if |samples| == 0 then b else LearnAll(Learn(b, samples[0], alpha), samples[1..], alpha)
  }

  /** However many samples are learned, the spread is never below the floor
      and the counter grows by exactly their number. */
  lemma {:induction false} LearnAllKeepsFloor(b: Band, samples: seq<real>, alpha: real)
    requires |samples| > 0 || b.sigma >= SigmaFloor
    ensures LearnAll(b, samples, alpha).sigma >= SigmaFloor
    ensures LearnAll(b, samples, alpha).samples == b.samples + |samples|
    ensures LearnAll(b, samples, alpha).k == b.k
    decreases |samples|
  {
    if |samples| > 0 {
      LearnAllKeepsFloor(Learn(b, samples[0], alpha), samples[1..], alpha);
    }
  }
}
