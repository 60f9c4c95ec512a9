/** Bounded adjustment of a band's sensitivity multiplier `k`: the clamp used
    when `k` is set directly, and the one-step nudges applied on
    false-positive and false-negative feedback. */
module Feedback {
  import opened RealArith

  /** The nudge a single feedback call applies to `k`. */
  const KStep: real := 0.1

  /** `k` clamped into [kMin, kMax] as `max(kMin, min(kMax, k))`; when the
      bounds are inverted the lower one wins. */
  function ClampK(k: real, kMin: real, kMax: real): (r: real)
    ensures r >= kMin
    ensures kMin <= kMax ==> r <= kMax
    ensures kMin <= k <= kMax ==> r == k
    ensures k < kMin ==> r == kMin
    ensures kMin <= kMax < k ==> r == kMax
    ensures kMax < kMin ==> r == kMin
  {
    Max(kMin, Min(kMax, k))
  }

  /** A false positive: `k` grows by one step, capped at kMax only. */
  function Raise(k: real, kMax: real): (r: real)
    ensures r <= kMax && r <= k + KStep
    ensures k + KStep <= kMax ==> r == k + KStep
    ensures k + KStep > kMax ==> r == kMax
  {
    Min(kMax, k + KStep)
  }

  /** A false negative: `k` shrinks by one step, floored at kMin only. */
  function Lower(k: real, kMin: real): (r: real)
    ensures r >= kMin && r >= k - KStep
    ensures k - KStep >= kMin ==> r == k - KStep
    ensures k - KStep < kMin ==> r == kMin
  {
    Max(kMin, k - KStep)
  }

  /** Each nudge keeps an in-bounds `k` in bounds. */
  lemma NudgesKeepBounds(k: real, kMin: real, kMax: real)
    requires kMin <= k <= kMax
    ensures kMin <= Raise(k, kMax) <= kMax
    ensures kMin <= Lower(k, kMin) <= kMax
  {
  }

  /** The nudges clamp one side only: after a false positive `k` is still
      below kMin exactly when it was more than one step below it, and after
      a false negative still above kMax exactly when it was more than one
      step above it. For example, 1.0 becomes 1.1 < 2.0 and 5.0 becomes
      4.9 > 4.0. */
  lemma NudgesClampOneSide(k: real, kMin: real, kMax: real)
    requires kMin <= kMax
    ensures Raise(k, kMax) < kMin <==> k + KStep < kMin
    ensures Lower(k, kMin) > kMax <==> k - KStep > kMax
    ensures Raise(1.0, 4.0) == 1.1 && Raise(1.0, 4.0) < 2.0
    ensures Lower(5.0, 2.0) == 4.9 && Lower(5.0, 2.0) > 4.0
  {
  }

  /** `n` false positives in a row. */
  function RaiseN(k: real, kMax: real, n: nat): real
  {
    if n == 0 then k else Raise(RaiseN(k, kMax, n - 1), kMax)
  }

  /** `n` false negatives in a row. */
  function LowerN(k: real, kMin: real, n: nat): real
  {
    if n == 0 then k else Lower(LowerN(k, kMin, n - 1), kMin)
  }

  /** After n >= 1 false positives `k` is min(kMax, k + n * 0.1): it climbs
      by one step per call and then stays at kMax. */
  lemma {:induction false} RaiseNClosedForm(k: real, kMax: real, n: nat)
    requires n >= 1
    ensures RaiseN(k, kMax, n) == Min(kMax, k + (n as real) * KStep)
  {
    if n > 1 {
      RaiseNClosedForm(k, kMax, n - 1);
    }
  }

  /** After n >= 1 false negatives `k` is max(kMin, k - n * 0.1). */
  lemma {:induction false} LowerNClosedForm(k: real, kMin: real, n: nat)
    requires n >= 1
    ensures LowerN(k, kMin, n) == Max(kMin, k - (n as real) * KStep)
  {
    if n > 1 {
      LowerNClosedForm(k, kMin, n - 1);
    }
  }

  /** From k = 3.0 with kMax = 4.0: one false positive gives 3.1, fifteen
      give 4.0, and no number of them exceeds 4.0. */
  lemma RaiseSaturates(n: nat)
    ensures RaiseN(3.0, 4.0, 1) == 3.1
    ensures RaiseN(3.0, 4.0, 15) == 4.0
    ensures RaiseN(3.0, 4.0, n) <= 4.0
  {
    RaiseNClosedForm(3.0, 4.0, 1);
    RaiseNClosedForm(3.0, 4.0, 15);
    if n > 0 {
      RaiseNClosedForm(3.0, 4.0, n);
    }
  }
}
