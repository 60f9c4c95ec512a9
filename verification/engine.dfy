/** The knowledge base of the noise detector as a value, and one transition
    function per operation: ingesting a sample, upserting a band, setting a
    band's sensitivity, and false-positive / false-negative feedback. The
    wall-clock minute of the day and the epoch second are parameters. */
module Engine {
  import opened TimeBands
  import opened Baseline
  import opened RealArith
  import Feedback

  /** Sanity ceilings of a sensor reading. */
  const RmsMax: real := 4095.0
  const PeakMax: int := 4095

  /** The whole detector state: global tunables, the last alert time, the
      ordered band registry and the feedback counters. */
  datatype Kb = Kb(alpha: real, kMin: real, kMax: real, picoMin: real,
                   warmupSamples: int, cooldownSec: int, lastAlertTs: int,
                   bands: seq<Band>, fp: nat, fn: nat)

  /** What band resolution needs: at least one band (the fallback) and
      parseable boundaries on all of them. */
  predicate WellFormedKb(kb: Kb)
  {
    |kb.bands| > 0 && AllWellFormed(kb.bands)
  }

  /** Every band's sensitivity lies within the global bounds. */
  predicate SensitivityInBounds(kb: Kb)
  {
    forall i :: 0 <= i < |kb.bands| ==> kb.kMin <= kb.bands[i].k <= kb.kMax
  }

  /** The state a fresh deployment starts from. */
  function DefaultKb(): (kb: Kb)
    ensures WellFormedKb(kb) && SensitivityInBounds(kb)
    ensures kb.lastAlertTs == 0 && kb.fp == 0 && kb.fn == 0 && |kb.bands| == 3
  {
    Kb(0.1, 2.0, 4.0, 150.0, 300, 7, 0, DefaultBands(), 0, 0)
  }

  datatype IgnoreReason = RmsOutOfRange | PeakOutOfRange

  /** The answer to one sample: ignored, or a decision with the threshold it
      was compared against. */
  datatype Outcome = Ignored(reason: IgnoreReason) | Decided(event: bool, threshold: real)

  datatype Result<T> = Ok(value: T) | NotFound

  /** The band in force at minute `nowMinute`. */
  function Active(kb: Kb, nowMinute: int): (i: nat)
    requires WellFormedKb(kb)
    ensures i < |kb.bands|
  {
    ResolveIndex(kb.bands, nowMinute)
  }

  predicate InWarmup(kb: Kb, b: Band)
  {
    b.samples < kb.warmupSamples
  }

  predicate InCooldown(kb: Kb, nowTs: int)
  {
    nowTs - kb.lastAlertTs < kb.cooldownSec
  }

  /** The four conditions that must hold together for an event. */
  predicate IsEvent(kb: Kb, b: Band, rms: real, peak: int, nowTs: int)
  {
    !InWarmup(kb, b) && rms > Threshold(b) && peak as real > kb.picoMin && !InCooldown(kb, nowTs)
  }

  predicate InRange(rms: real, peak: int)
  {
    0.0 <= rms <= RmsMax && 0 <= peak <= PeakMax
  }

  // ---------------------------------------------------------------------------
  // Transitions
  // ---------------------------------------------------------------------------

  /** One sample: out-of-range readings are ignored; otherwise the active
      band decides against its current threshold, an event only restarts the
      cooldown clock, and a non-event is learned into the active band. */
  function IngestStep(kb: Kb, rms: real, peak: int, nowMinute: int, nowTs: int): (r: (Kb, Outcome))
    requires WellFormedKb(kb)
    ensures r.1.Ignored? <==> !InRange(rms, peak)
    ensures WellFormedKb(r.0) && SameBoundaries(kb.bands, r.0.bands)
    ensures r.0.kMin == kb.kMin && r.0.kMax == kb.kMax
    ensures forall j :: 0 <= j < |kb.bands| ==> r.0.bands[j].k == kb.bands[j].k
  {
    if !(0.0 <= rms <= RmsMax) then (kb, Ignored(RmsOutOfRange))
    else if !(0 <= peak <= PeakMax) then (kb, Ignored(PeakOutOfRange))
    else
      var i := Active(kb, nowMinute);
      var b := kb.bands[i];
      if IsEvent(kb, b, rms, peak, nowTs) then
        (kb.(lastAlertTs := nowTs), Decided(true, Threshold(b)))
      else
        (kb.(bands := kb.bands[i := Learn(b, rms, kb.alpha)]), Decided(false, Threshold(b)))
  }

  /** The band a new name is registered with. */
  function NewBand(name: string, start: string, end: string): (b: Band)
    ensures b.name == name && b.start == start && b.end == end
    ensures b.mu == 80.0 && b.sigma == 15.0 && b.k == 3.0 && b.samples == 0
  {
    Band(name, start, end, 80.0, 15.0, 3.0, 0)
  }

  /** Upsert: a known name gets new boundaries, an unknown one is appended. */
  function SetBandStep(kb: Kb, name: string, start: string, end: string): (kb': Kb)
    ensures |kb.bands| <= |kb'.bands| <= |kb.bands| + 1
    ensures IndexOfName(kb.bands, name).Some? <==> |kb'.bands| == |kb.bands|
    ensures kb' == kb.(bands := kb'.bands)
  {
    match IndexOfName(kb.bands, name)
    case Some(i) => kb.(bands := kb.bands[i := kb.bands[i].(start := start, end := end)])
    case None => kb.(bands := kb.bands + [NewBand(name, start, end)])
  }

  /** Set the named band's `k`, clamped; an unknown name is NotFound. */
  function SetKStep(kb: Kb, name: string, k: real): (r: Result<Kb>)
    ensures r.NotFound? <==> IndexOfName(kb.bands, name).None?
    ensures r.Ok? ==> SameBoundaries(kb.bands, r.value.bands) && r.value == kb.(bands := r.value.bands)
  {
    match IndexOfName(kb.bands, name)
    case Some(i) => Ok(kb.(bands := kb.bands[i := kb.bands[i].(k := Feedback.ClampK(k, kb.kMin, kb.kMax))]))
    case None => NotFound
  }

  /** False positive: count it and raise the active band's `k`. */
  function MarkFpStep(kb: Kb, nowMinute: int): (kb': Kb)
    requires WellFormedKb(kb)
    ensures WellFormedKb(kb') && SameBoundaries(kb.bands, kb'.bands) && kb'.kMax == kb.kMax
  {
    var i := Active(kb, nowMinute);
    kb.(fp := kb.fp + 1, bands := kb.bands[i := kb.bands[i].(k := Feedback.Raise(kb.bands[i].k, kb.kMax))])
  }

  /** False negative: count it and lower the active band's `k`. */
  function MarkFnStep(kb: Kb, nowMinute: int): (kb': Kb)
    requires WellFormedKb(kb)
    ensures WellFormedKb(kb') && SameBoundaries(kb.bands, kb'.bands) && kb'.kMin == kb.kMin
  {
    var i := Active(kb, nowMinute);
    kb.(fn := kb.fn + 1, bands := kb.bands[i := kb.bands[i].(k := Feedback.Lower(kb.bands[i].k, kb.kMin))])
  }

  // ---------------------------------------------------------------------------
  // Ingestion
  // ---------------------------------------------------------------------------

  /** A sample is ignored exactly when a reading is out of range (rms
      checked first), and an ignored sample changes nothing. */
  lemma IngestIgnored(kb: Kb, rms: real, peak: int, nowMinute: int, nowTs: int)
    requires WellFormedKb(kb)
    ensures var (kb', out) := IngestStep(kb, rms, peak, nowMinute, nowTs);
      (out.Ignored? <==> !InRange(rms, peak)) &&
      (out.Ignored? ==> kb' == kb) &&
      (!(0.0 <= rms <= RmsMax) ==> out == Ignored(RmsOutOfRange)) &&
      (0.0 <= rms <= RmsMax && !(0 <= peak <= PeakMax) ==> out == Ignored(PeakOutOfRange))
  {
  }

  /** An in-range sample is an event iff the active band is past warmup,
      the cooldown has elapsed, rms exceeds mu + k * sigma and peak exceeds
      the floor, all read from the state before the sample; the reported
      threshold is that pre-sample threshold. */
  lemma IngestDecision(kb: Kb, rms: real, peak: int, nowMinute: int, nowTs: int)
    requires WellFormedKb(kb) && InRange(rms, peak)
    ensures var (kb', out) := IngestStep(kb, rms, peak, nowMinute, nowTs);
      var b := kb.bands[Active(kb, nowMinute)];
      out.Decided? &&
      out.threshold == b.mu + b.k * b.sigma &&
      (out.event <==> b.samples >= kb.warmupSamples && nowTs - kb.lastAlertTs >= kb.cooldownSec &&
                      rms > b.mu + b.k * b.sigma && peak as real > kb.picoMin)
  {
    var b := kb.bands[Active(kb, nowMinute)];
    var out := IngestStep(kb, rms, peak, nowMinute, nowTs).1;
    assert out == Decided(IsEvent(kb, b, rms, peak, nowTs), Threshold(b));
  }

  /** A band still warming up never fires, however loud the sample. */
  lemma WarmupNeverFires(kb: Kb, rms: real, peak: int, nowMinute: int, nowTs: int)
    requires WellFormedKb(kb) && kb.bands[Active(kb, nowMinute)].samples < kb.warmupSamples
    ensures !IngestStep(kb, rms, peak, nowMinute, nowTs).1.Decided? ||
            !IngestStep(kb, rms, peak, nowMinute, nowTs).1.event
  {
  }

  /** Within the cooldown of the last alert nothing fires. */
  lemma CooldownNeverFires(kb: Kb, rms: real, peak: int, nowMinute: int, nowTs: int)
    requires WellFormedKb(kb) && nowTs - kb.lastAlertTs < kb.cooldownSec
    ensures !IngestStep(kb, rms, peak, nowMinute, nowTs).1.Decided? ||
            !IngestStep(kb, rms, peak, nowMinute, nowTs).1.event
  {
  }

  /** An event changes only the last-alert time: no band learns from it. */
  lemma EventOnlyStampsAlert(kb: Kb, rms: real, peak: int, nowMinute: int, nowTs: int)
    requires WellFormedKb(kb)
    requires var out := IngestStep(kb, rms, peak, nowMinute, nowTs).1; out.Decided? && out.event
    ensures IngestStep(kb, rms, peak, nowMinute, nowTs).0 == kb.(lastAlertTs := nowTs)
  {
  }

  /** After an alert at `t1`, a sample at `t2` less than the cooldown later
      cannot fire, whatever its levels. */
  lemma AlertStartsCooldown(kb: Kb, rms1: real, peak1: int, m1: int, t1: int,
                            rms2: real, peak2: int, m2: int, t2: int)
    requires WellFormedKb(kb)
    requires var out := IngestStep(kb, rms1, peak1, m1, t1).1; out.Decided? && out.event
    requires t2 - t1 < kb.cooldownSec
    ensures var kb1 := IngestStep(kb, rms1, peak1, m1, t1).0;
      WellFormedKb(kb1) &&
      var out2 := IngestStep(kb1, rms2, peak2, m2, t2).1;
      !out2.Decided? || !out2.event
  {
    EventOnlyStampsAlert(kb, rms1, peak1, m1, t1);
  }

  /** A non-event is learned into the active band alone: the band becomes
      exactly `Learn(b, rms, alpha)`, so its mean is the EMA toward rms
      (between the two when 0 <= alpha <= 1), its spread the floored EMA
      spread, its counter one more, its name, boundaries and k kept; every
      other band and every global field is unchanged. */
  lemma NonEventLearns(kb: Kb, rms: real, peak: int, nowMinute: int, nowTs: int)
    requires WellFormedKb(kb) && InRange(rms, peak)
    requires !IngestStep(kb, rms, peak, nowMinute, nowTs).1.event
    ensures var kb' := IngestStep(kb, rms, peak, nowMinute, nowTs).0;
      var i := Active(kb, nowMinute);
      var (b, b') := (kb.bands[i], kb'.bands[i]);
      |kb'.bands| == |kb.bands| &&
      kb' == kb.(bands := kb'.bands) &&
      (forall j :: 0 <= j < |kb.bands| && j != i ==> kb'.bands[j] == kb.bands[j]) &&
      b' == Learn(b, rms, kb.alpha) &&
      b'.mu == NextMu(b.mu, rms, kb.alpha) &&
      b'.samples == b.samples + 1 &&
      b'.sigma >= SigmaFloor &&
      b'.name == b.name && b'.start == b.start && b'.end == b.end && b'.k == b.k &&
      (0.0 <= kb.alpha <= 1.0 ==>
         (b.mu <= rms ==> b.mu <= b'.mu <= rms) && (rms <= b.mu ==> rms <= b'.mu <= b.mu))
  {
    var i := Active(kb, nowMinute);
    var b := kb.bands[i];
    assert IngestStep(kb, rms, peak, nowMinute, nowTs).0 == kb.(bands := kb.bands[i := Learn(b, rms, kb.alpha)]);
    if 0.0 <= kb.alpha <= 1.0 {
      NextMuBetween(b.mu, rms, kb.alpha);
    }
  }

  /** Ingestion never touches boundaries, so the registry stays well formed
      and every minute resolves to the same band afterwards. */
  lemma IngestKeepsRegistry(kb: Kb, rms: real, peak: int, nowMinute: int, nowTs: int, t: int)
    requires WellFormedKb(kb)
    ensures var kb' := IngestStep(kb, rms, peak, nowMinute, nowTs).0;
      WellFormedKb(kb') && Active(kb', t) == Active(kb, t) &&
      kb'.kMin == kb.kMin && kb'.kMax == kb.kMax &&
      (forall j :: 0 <= j < |kb.bands| ==> kb'.bands[j].k == kb.bands[j].k)
  {
    var kb' := IngestStep(kb, rms, peak, nowMinute, nowTs).0;
    ResolveOnBoundaries(kb.bands, kb'.bands, t);
  }

  /** The two worked examples for band1 (mean 90, spread 15, k 3.0) once
      warmed up, at 10:00 and well outside the cooldown: rms 140 / peak 200
      fires against threshold 135, and rms 100 / peak 50 does not and moves
      the mean to 91, the spread to 14.4 and the counter to 301. */
  lemma WorkedExamples()
    ensures var kb := DefaultKb().(bands := DefaultBands()[0 := DefaultBands()[0].(samples := 300)]);
      WellFormedKb(kb) &&
      IngestStep(kb, 140.0, 200, 600, 1000) == (kb.(lastAlertTs := 1000), Decided(true, 135.0)) &&
      IngestStep(kb, 100.0, 50, 600, 1000).1 == Decided(false, 135.0) &&
      IngestStep(kb, 100.0, 50, 600, 1000).0.bands[0] ==
        Band("band1", "08:00", "12:00", 91.0, 14.4, 3.0, 301)
  {
    var kb := DefaultKb().(bands := DefaultBands()[0 := DefaultBands()[0].(samples := 300)]);
    DefaultBandMinutes();
    assert Covers(kb.bands[0], 600);
    assert Active(kb, 600) == 0;
    assert Threshold(kb.bands[0]) == 135.0;
    assert NextMu(90.0, 100.0, 0.1) == 91.0;
  }

  // ---------------------------------------------------------------------------
  // Band configuration
  // ---------------------------------------------------------------------------

  /** Upserting a known name changes only that band's boundaries: its name,
      mean, spread, k and counter, the other bands and the globals stay. */
  lemma SetBandExisting(kb: Kb, name: string, start: string, end: string)
    requires IndexOfName(kb.bands, name).Some?
    ensures var kb' := SetBandStep(kb, name, start, end);
      var i := IndexOfName(kb.bands, name).value;
      |kb'.bands| == |kb.bands| && kb' == kb.(bands := kb'.bands) &&
      kb'.bands[i].start == start && kb'.bands[i].end == end &&
      kb'.bands[i].name == kb.bands[i].name && kb'.bands[i].mu == kb.bands[i].mu &&
      kb'.bands[i].sigma == kb.bands[i].sigma && kb'.bands[i].k == kb.bands[i].k &&
      kb'.bands[i].samples == kb.bands[i].samples &&
      (forall j :: 0 <= j < |kb.bands| && j != i ==> kb'.bands[j] == kb.bands[j])
  {
  }

  /** Upserting an unknown name appends it with the default baseline and
      leaves the existing bands and the globals as they were. */
  lemma SetBandNew(kb: Kb, name: string, start: string, end: string)
    requires IndexOfName(kb.bands, name).None?
    ensures var kb' := SetBandStep(kb, name, start, end);
      kb' == kb.(bands := kb'.bands) &&
      kb'.bands[..|kb.bands|] == kb.bands &&
      kb'.bands == kb.bands + [Band(name, start, end, 80.0, 15.0, 3.0, 0)]
  {
    var kb' := SetBandStep(kb, name, start, end);
    assert kb'.bands[..|kb.bands|] == kb.bands;
  }

  /** After an upsert the name is registered, the first band with it carries
      the requested boundaries, and a registry with valid boundaries stays
      valid. */
  lemma SetBandRegisters(kb: Kb, name: string, start: string, end: string)
    requires IsHhmm(start) && IsHhmm(end)
    ensures var kb' := SetBandStep(kb, name, start, end);
      var r := IndexOfName(kb'.bands, name);
      r.Some? && kb'.bands[r.value].start == start && kb'.bands[r.value].end == end &&
      (AllWellFormed(kb.bands) ==> AllWellFormed(kb'.bands)) &&
      (WellFormedKb(kb) ==> WellFormedKb(kb')) &&
      |kb.bands| <= |kb'.bands| <= |kb.bands| + 1
  {
    var kb' := SetBandStep(kb, name, start, end);
    match IndexOfName(kb.bands, name)
    case Some(i) =>
      assert kb'.bands[i].name == name;
      assert forall j :: 0 <= j < i ==> kb'.bands[j].name != name;
    case None =>
      assert kb'.bands[|kb.bands|].name == name;
      assert forall j :: 0 <= j < |kb.bands| ==> kb'.bands[j].name != name;
  }

  /** Setting k fails exactly for an unknown name; otherwise only the first
      band with that name changes, to exactly `max(kMin, min(kMax, k))`,
      which lies within the bounds whenever kMin <= kMax and is kMin when
      they are inverted. */
  lemma SetKClamps(kb: Kb, name: string, k: real)
    ensures SetKStep(kb, name, k).NotFound? <==> forall j :: 0 <= j < |kb.bands| ==> kb.bands[j].name != name
    ensures var r := SetKStep(kb, name, k);
      r.Ok? ==>
        var i := IndexOfName(kb.bands, name).value;
        kb.bands[i].name == name &&
        |r.value.bands| == |kb.bands| && r.value == kb.(bands := r.value.bands) &&
        r.value.bands[i] == kb.bands[i].(k := r.value.bands[i].k) &&
        r.value.bands[i].k == Feedback.ClampK(k, kb.kMin, kb.kMax) &&
        kb.kMin <= r.value.bands[i].k &&
        (kb.kMin <= kb.kMax ==> r.value.bands[i].k <= kb.kMax) &&
        (k < kb.kMin ==> r.value.bands[i].k == kb.kMin) &&
        (kb.kMin <= kb.kMax < k ==> r.value.bands[i].k == kb.kMax) &&
        (kb.kMax < kb.kMin ==> r.value.bands[i].k == kb.kMin) &&
        (kb.kMin <= k <= kb.kMax ==> r.value.bands[i].k == k) &&
        (forall j :: 0 <= j < |kb.bands| && j != i ==> r.value.bands[j] == kb.bands[j])
  {
  }

  // ---------------------------------------------------------------------------
  // Feedback
  // ---------------------------------------------------------------------------

  /** Feedback edits `k` only, so the registry stays well formed and every
      minute resolves to the same band afterwards. */
  lemma FeedbackKeepsResolution(kb: Kb, nowMinute: int, t: int)
    requires WellFormedKb(kb)
    ensures WellFormedKb(MarkFpStep(kb, nowMinute)) && Active(MarkFpStep(kb, nowMinute), t) == Active(kb, t)
    ensures WellFormedKb(MarkFnStep(kb, nowMinute)) && Active(MarkFnStep(kb, nowMinute), t) == Active(kb, t)
  {
    ResolveOnBoundaries(kb.bands, MarkFpStep(kb, nowMinute).bands, t);
    ResolveOnBoundaries(kb.bands, MarkFnStep(kb, nowMinute).bands, t);
  }

  /** A false positive counts one and raises only the active band's k by 0.1,
      capped at kMax: exactly kMax when the step does not fit. */
  lemma MarkFpEffect(kb: Kb, nowMinute: int)
    requires WellFormedKb(kb)
    ensures var kb' := MarkFpStep(kb, nowMinute);
      var i := Active(kb, nowMinute);
      kb'.fp == kb.fp + 1 && kb' == kb.(fp := kb'.fp, bands := kb'.bands) &&
      |kb'.bands| == |kb.bands| &&
      kb'.bands[i] == kb.bands[i].(k := kb'.bands[i].k) &&
      kb'.bands[i].k == Feedback.Raise(kb.bands[i].k, kb.kMax) &&
      kb'.bands[i].k <= kb.kMax &&
      (kb.bands[i].k + 0.1 <= kb.kMax ==> kb'.bands[i].k == kb.bands[i].k + 0.1) &&
      (kb.bands[i].k + 0.1 > kb.kMax ==> kb'.bands[i].k == kb.kMax) &&
      (forall j :: 0 <= j < |kb.bands| && j != i ==> kb'.bands[j] == kb.bands[j])
  {
  }

  /** A false negative counts one and lowers only the active band's k by
      0.1, floored at kMin: exactly kMin when the step does not fit. */
  lemma MarkFnEffect(kb: Kb, nowMinute: int)
    requires WellFormedKb(kb)
    ensures var kb' := MarkFnStep(kb, nowMinute);
      var i := Active(kb, nowMinute);
      kb'.fn == kb.fn + 1 && kb' == kb.(fn := kb'.fn, bands := kb'.bands) &&
      |kb'.bands| == |kb.bands| &&
      kb'.bands[i] == kb.bands[i].(k := kb'.bands[i].k) &&
      kb'.bands[i].k == Feedback.Lower(kb.bands[i].k, kb.kMin) &&
      kb'.bands[i].k >= kb.kMin &&
      (kb.bands[i].k - 0.1 >= kb.kMin ==> kb'.bands[i].k == kb.bands[i].k - 0.1) &&
      (kb.bands[i].k - 0.1 < kb.kMin ==> kb'.bands[i].k == kb.kMin) &&
      (forall j :: 0 <= j < |kb.bands| && j != i ==> kb'.bands[j] == kb.bands[j])
  {
  }

  /** The state `n` false positives at one minute should lead to: the
      counter up by n, the band active at that minute nudged n times, and
      nothing else changed. */
  function RaisedBy(kb: Kb, nowMinute: int, n: nat): Kb
    requires WellFormedKb(kb)
  {
    var i := Active(kb, nowMinute);
    kb.(fp := kb.fp + n,
        bands := kb.bands[i := kb.bands[i].(k := Feedback.RaiseN(kb.bands[i].k, kb.kMax, n))])
  }

  /** `n` false positives at the same minute: they keep hitting the band
      first resolved, whose k follows n steps of the capped nudge, while the
      counter grows by n and nothing else changes. */
  function MarkFpTimes(kb: Kb, nowMinute: int, n: nat): (kb': Kb)
    requires WellFormedKb(kb)
    ensures WellFormedKb(kb') && SameBoundaries(kb.bands, kb'.bands)
    ensures kb' == RaisedBy(kb, nowMinute, n)
  {
    if n == 0 then
      RaisedByZero(kb, nowMinute);
      kb
    else
      var prev := MarkFpTimes(kb, nowMinute, n - 1);
      RaisedOneMore(kb, prev, nowMinute, n);
      MarkFpStep(prev, nowMinute)
  }

  lemma RaisedByZero(kb: Kb, nowMinute: int)
    requires WellFormedKb(kb)
    ensures RaisedBy(kb, nowMinute, 0) == kb
  {
    var i := Active(kb, nowMinute);
    assert kb.bands[i := kb.bands[i]] == kb.bands;
  }

  /** The inductive step of MarkFpTimes: one more false positive after
      n - 1 of them gives RaisedBy for n. */
  lemma RaisedOneMore(kb: Kb, prev: Kb, nowMinute: int, n: nat)
    requires WellFormedKb(kb) && n > 0 && prev == RaisedBy(kb, nowMinute, n - 1)
    requires WellFormedKb(prev) && SameBoundaries(kb.bands, prev.bands)
    ensures MarkFpStep(prev, nowMinute) == RaisedBy(kb, nowMinute, n)
  {
    var i := Active(kb, nowMinute);
    FalsePositiveAfter(kb, prev, nowMinute);
    var b := kb.bands[i].(k := Feedback.RaiseN(kb.bands[i].k, kb.kMax, n));
    assert prev.bands[i := b] == kb.bands[i := b];
  }

  /** A false positive on any state with the boundaries of `kb` nudges the
      band that `kb` resolves the minute to, and changes nothing else. */
  lemma FalsePositiveAfter(kb: Kb, prev: Kb, nowMinute: int)
    requires WellFormedKb(kb) && WellFormedKb(prev) && SameBoundaries(kb.bands, prev.bands)
    ensures var i := Active(kb, nowMinute);
      MarkFpStep(prev, nowMinute) ==
        prev.(fp := prev.fp + 1,
              bands := prev.bands[i := prev.bands[i].(k := Feedback.Raise(prev.bands[i].k, prev.kMax))])
  {
    ResolveOnBoundaries(kb.bands, prev.bands, nowMinute);
  }

  /** Fifteen false positives on a band at k 3.0 with the shipped kMax 4.0
      leave it at exactly 4.0. */
  lemma FalsePositivesSaturate(kb: Kb, nowMinute: int)
    requires WellFormedKb(kb) && kb.kMax == 4.0 && kb.bands[Active(kb, nowMinute)].k == 3.0
    ensures |MarkFpTimes(kb, nowMinute, 1).bands| == |kb.bands|
    ensures MarkFpTimes(kb, nowMinute, 1).bands[Active(kb, nowMinute)].k == 3.1
    ensures MarkFpTimes(kb, nowMinute, 15).bands[Active(kb, nowMinute)].k == 4.0
  {
    Feedback.RaiseSaturates(15);
  }

  // ---------------------------------------------------------------------------
  // The sensitivity bounds as an invariant
  // ---------------------------------------------------------------------------

  /** Starting from a state whose every k is within [kMin, kMax], every
      operation keeps it so; an upsert needs the default k 3.0 to be within
      the bounds too. */
  lemma IngestKeepsSensitivityInBounds(kb: Kb, rms: real, peak: int, nowMinute: int, nowTs: int)
    requires WellFormedKb(kb) && SensitivityInBounds(kb)
    ensures SensitivityInBounds(IngestStep(kb, rms, peak, nowMinute, nowTs).0)
  {
    IngestKeepsRegistry(kb, rms, peak, nowMinute, nowTs, nowMinute);
  }

  lemma ConfigurationKeepsSensitivityInBounds(kb: Kb, name: string, start: string, end: string, k: real)
    requires WellFormedKb(kb) && SensitivityInBounds(kb)
    ensures kb.kMin <= 3.0 <= kb.kMax ==> SensitivityInBounds(SetBandStep(kb, name, start, end))
    ensures SetKStep(kb, name, k).Ok? ==> SensitivityInBounds(SetKStep(kb, name, k).value)
  {
    assert kb.kMin <= kb.bands[0].k <= kb.kMax;
  }

  lemma FeedbackKeepsSensitivityInBounds(kb: Kb, nowMinute: int)
    requires WellFormedKb(kb) && SensitivityInBounds(kb)
    ensures SensitivityInBounds(MarkFpStep(kb, nowMinute))
    ensures SensitivityInBounds(MarkFnStep(kb, nowMinute))
  {
    var i := Active(kb, nowMinute);
    Feedback.NudgesKeepBounds(kb.bands[i].k, kb.kMin, kb.kMax);
  }

  /** The nudges alone do not restore the bounds: a band below kMin stays
      below it after a false positive. */
  lemma FalsePositiveBelowBounds()
    ensures var kb := DefaultKb().(bands := DefaultBands()[0 := DefaultBands()[0].(k := 1.0)]);
      WellFormedKb(kb) && Active(kb, 600) == 0 &&
      MarkFpStep(kb, 600).bands[0].k == 1.1 && MarkFpStep(kb, 600).bands[0].k < kb.kMin
  {
    var kb := DefaultKb().(bands := DefaultBands()[0 := DefaultBands()[0].(k := 1.0)]);
    DefaultBandMinutes();
    assert Covers(kb.bands[0], 600);
  }
}
