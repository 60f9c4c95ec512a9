/** The detector's live knowledge base: one object whose fields are the
    global tunables, the last alert time, the band registry and the feedback
    counters, updated in place by each operation. Every method is proved
    against a function of the old state: BandNow against
    TimeBands.ResolveIndex, Ingest against Engine.IngestStep, LearnSample
    against Baseline.Learn, and SetBand, SetK, MarkFp and MarkFn against
    Engine.SetBandStep, SetKStep, MarkFpStep and MarkFnStep. */
module Agent {
  import opened TimeBands
  import opened Baseline
  import opened RealArith
  import opened Engine
  import Feedback

  class KnowledgeBase {
    var alpha: real
    var kMin: real
    var kMax: real
    var picoMin: real
    var warmupSamples: int
    var cooldownSec: int
    var lastAlertTs: int
    var bands: seq<Band>
    var fp: nat
    var fn: nat

    /** The whole state as a value. */
    function State(): Kb
      reads this
    {
      Kb(alpha, kMin, kMax, picoMin, warmupSamples, cooldownSec, lastAlertTs, bands, fp, fn)
    }

    ghost predicate Valid()
      reads this
    {
      WellFormedKb(State())
    }

    /** A fresh deployment: the shipped tunables and three bands. */
    constructor ()
      ensures Valid() && State() == DefaultKb()
    {
      alpha, kMin, kMax, picoMin := 0.1, 2.0, 4.0, 150.0;
      warmupSamples, cooldownSec, lastAlertTs := 300, 7, 0;
      bands := DefaultBands();
      fp, fn := 0, 0;
    }

    /** A knowledge base restored from a previously saved state. */
    constructor Restore(kb: Kb)
      requires WellFormedKb(kb)
      ensures Valid() && State() == kb
    {
      alpha, kMin, kMax, picoMin := kb.alpha, kb.kMin, kb.kMax, kb.picoMin;
      warmupSamples, cooldownSec, lastAlertTs := kb.warmupSamples, kb.cooldownSec, kb.lastAlertTs;
      bands := kb.bands;
      fp, fn := kb.fp, kb.fn;
    }

    /** The index of the band in force at minute `nowMinute`: the first band
        covering it, else band 0. */
    method BandNow(nowMinute: int) returns (i: nat)
      requires Valid()
      ensures i == ResolveIndex(bands, nowMinute)
    {
      var j := 0;
      while j < |bands|
        invariant 0 <= j <= |bands|
        invariant forall q :: 0 <= q < j ==> !Covers(bands[q], nowMinute)
      {
        var s, e := HhmmToMin(bands[j].start), HhmmToMin(bands[j].end);
        if e >= s && s <= nowMinute < e {
          return j;
        }
        if e < s && (nowMinute >= s || nowMinute < e) {
          return j;
        }
        j := j + 1;
      }
      return 0;
    }

    /** Handle one sample read at wall-clock minute `nowMinute` and epoch
        second `nowTs`. */
    method Ingest(rms: real, peak: int, nowMinute: int, nowTs: int) returns (out: Outcome)
      requires Valid()
      modifies this
      ensures Valid()
      ensures (State(), out) == IngestStep(old(State()), rms, peak, nowMinute, nowTs)
    {
      if !(0.0 <= rms <= RmsMax) {
        return Ignored(RmsOutOfRange);
      }
      if !(0 <= peak <= PeakMax) {
        return Ignored(PeakOutOfRange);
      }
      ghost var kb := State();
      var i := BandNow(nowMinute);
      assert i == Active(kb, nowMinute);
      var b := bands[i];
      var inWarmup := b.samples < warmupSamples;
      var inCooldown := nowTs - lastAlertTs < cooldownSec;
      var threshold := b.mu + b.k * b.sigma;
      var isEvent := !inWarmup && rms > threshold && peak as real > picoMin && !inCooldown;
      assert threshold == Threshold(b);
      assert isEvent == IsEvent(kb, b, rms, peak, nowTs);
      if isEvent {
        lastAlertTs := nowTs;
        return Decided(true, threshold);
      }
      LearnSample(i, rms);
      out := Decided(false, threshold);
    }

    /** The learning step of a non-event: the EMA update of band `i`'s mean
        and spread, the spread floor and the sample counter. */
    method LearnSample(i: nat, rms: real)
      requires Valid() && i < |bands|
      modifies this
      ensures Valid()
      ensures State() == old(State()).(bands := old(bands)[i := Learn(old(bands)[i], rms, alpha)])
    {
      var b := bands[i];
      var newMu := (1.0 - alpha) * b.mu + alpha * rms;
      var newSigma := (1.0 - alpha) * b.sigma + alpha * Abs(rms - newMu);
      LearnFields(b, rms, alpha, newMu, newSigma);
      bands := bands[i := b.(mu := newMu, sigma := Max(SigmaFloor, newSigma), samples := b.samples + 1)];
    }

    /** Upsert the band `name` with new boundaries. */
    method SetBand(name: string, start: string, end: string)
      requires IsHhmm(start) && IsHhmm(end)
      modifies this
      ensures old(Valid()) ==> Valid()
      ensures State() == SetBandStep(old(State()), name, start, end)
    {
      var i := 0;
      while i < |bands|
        invariant 0 <= i <= |bands|
        invariant bands == old(bands)
        invariant forall q :: 0 <= q < i ==> bands[q].name != name
      {
        if bands[i].name == name {
          bands := bands[i := bands[i].(start := start, end := end)];
          return;
        }
        i := i + 1;
      }
      bands := bands + [NewBand(name, start, end)];
    }

    /** Set the sensitivity of band `name`, clamped into [kMin, kMax], and
        return that band; an unknown name changes nothing. */
    method SetK(name: string, k: real) returns (r: Result<Band>)
      modifies this
      ensures SameBoundaries(old(bands), bands) && (Valid() <==> old(Valid()))
      ensures IndexOfName(old(bands), name).None? ==> r == NotFound && State() == old(State())
      ensures IndexOfName(old(bands), name).Some? ==>
                State() == SetKStep(old(State()), name, k).value &&
                r == Ok(bands[IndexOfName(old(bands), name).value])
    {
      var i := 0;
      while i < |bands|
        invariant 0 <= i <= |bands|
        invariant bands == old(bands)
        invariant forall q :: 0 <= q < i ==> bands[q].name != name
      {
        if bands[i].name == name {
          bands := bands[i := bands[i].(k := Feedback.ClampK(k, kMin, kMax))];
          return Ok(bands[i]);
        }
        i := i + 1;
      }
      return NotFound;
    }

    /** A false positive at minute `nowMinute`; returns the adjusted band. */
    method MarkFp(nowMinute: int) returns (b: Band)
      requires Valid()
      modifies this
      ensures Valid()
      ensures State() == MarkFpStep(old(State()), nowMinute)
      ensures b == bands[ResolveIndex(old(bands), nowMinute)]
    {
      var i := BandNow(nowMinute);
      fp := fp + 1;
      bands := bands[i := bands[i].(k := Min(kMax, bands[i].k + 0.1))];
      b := bands[i];
    }

    /** A false negative at minute `nowMinute`; returns the adjusted band. */
    method MarkFn(nowMinute: int) returns (b: Band)
      requires Valid()
      modifies this
      ensures Valid()
      ensures State() == MarkFnStep(old(State()), nowMinute)
      ensures b == bands[ResolveIndex(old(bands), nowMinute)]
    {
      var i := BandNow(nowMinute);
      fn := fn + 1;
      bands := bands[i := bands[i].(k := Max(kMin, bands[i].k - 0.1))];
      b := bands[i];
    }
  }
}
