# Adaptive noise-threshold engine

A Dafny model of the decision core of a per-device noise-alert agent. Each
reading of a sensor (an rms level and a peak) is judged against a learned
baseline that depends on the time of day, then either raises an alert or
is learned into that baseline. The model covers these parts:

- **Time bands** (`time_bands.dfy`, module `TimeBands`): a band is a named
  "HH:MM"–"HH:MM" interval of the day that carries its own learned mean rms
  (`mu`), spread (`sigma`), sensitivity multiplier `k` and sample counter.
  Resolution scans the bands in list order and takes the first one that
  covers the current minute. A band whose end comes before its start wraps
  past midnight. When no band covers the minute, the first band is used.
- **Real arithmetic** (`real_arith.dfy`, module `RealArith`): `Abs`, `Max`
  and `Min` on reals, shared by the two modules below.
- **Baseline** (`baseline.dfy`, module `Baseline`): the alert threshold
  `mu + k * sigma`, and the learning step applied to a non-event. The
  learning step is an exponential moving average of the mean and the spread.
  The spread is floored at 5.0 and the counter grows by one.
- **Feedback** (`feedback.dfy`, module `Feedback`): the clamp used when `k`
  is set directly. Also the ±0.1 nudges applied to `k` on false-positive and
  false-negative feedback, each capped on one side only.
- **Engine** (`engine.dfy`, module `Engine`): the whole knowledge base as a
  value (`Kb`) with its shipped defaults. It has one transition function per
  operation: ingest a sample, upsert a band, set a band's `k`, mark a false
  positive, mark a false negative. The lemmas state what each operation
  promises.
- **Agent** (`agent.dfy`, module `Agent`): class `KnowledgeBase`. It holds
  the same state in fields that its methods update in place. The band scans
  are loops, as in the source. Each method's postcondition ties its result
  and the new state to a function of the old state:
  - `BandNow` to `TimeBands.ResolveIndex`;
  - `Ingest` to `Engine.IngestStep`;
  - `LearnSample` to `Baseline.Learn` on the chosen band;
  - `SetBand` to `Engine.SetBandStep`;
  - `SetK` to `Engine.SetKStep`;
  - `MarkFp` to `Engine.MarkFpStep`;
  - `MarkFn` to `Engine.MarkFnStep`.

Two wall-clock readings are taken as parameters:

- `nowMinute`: the hour times 60 plus the minute of the local clock. It
  picks the band.
- `nowTs`: the integer epoch second. It drives the cooldown.

The sample's own timestamp plays no part in the decision, because the source
never reads it. All quantities are exact `real`s.

Some behaviours of the code are easy to miss:

- Feedback caps one side only. A false positive caps `k` at `k_max`, and a
  false negative floors it at `k_min`. A `k` more than one step outside the
  other bound stays outside it (`Feedback.NudgesClampOneSide`,
  `Engine.FalsePositiveBelowBounds`).
- Band boundaries are not bounded to one day. The accepted "HH:MM" pattern
  admits anything from 00:00 to 99:99, that is minutes up to 6039
  (`TimeBands.HhmmNotBoundedToOneDay`).
- With `alpha == 1` the new mean equals the sample. It lies strictly
  between the old mean and the sample only for `alpha` in (0, 1)
  (`Baseline.NextMuStrictlyBetween`).
- The ingest handler checks `0 <= rms <= 4095` and `0 <= peak <= 4095`
  itself and answers "ignored" otherwise. Negative values are refused even
  earlier, by the request validators. The model keeps the handler's own
  check in full (`Engine.IngestIgnored`).
- Band resolution and feedback read `bands[0]`, so an empty band list would
  fail. The model requires at least one band; no operation removes bands.

## Model

| member | source | states |
|---|---|---|
| TimeBands.HhmmToMin | app.py:89-91 | an "HH:MM" string denotes hours × 60 + minutes, at most 99 × 60 + 99 |
| TimeBands.HhmmToMinOfHhmm | app.py:89-91 | parsing the text of hour h and minute m gives exactly h × 60 + m and reads back both fields |
| TimeBands.HhmmOfFields | app.py:89-91 | every accepted string is the text of its own two fields, so parsing loses nothing |
| TimeBands.HhmmNotBoundedToOneDay | app.py:133-136 | the accepted pattern lets "99:99" through (minute 6039 ≥ 1440), and "12:75" denotes the same minute as "13:15" |
| TimeBands.Covers | app.py:97-103 | whether a minute lies in a band; its meaning is stated by CoversCases and WrappingIsComplement below |
| TimeBands.CoversCases | app.py:97-103 | a non-wrapping band covers t iff start ≤ t < end; a wrapping band (end < start) covers t iff t ≥ start or t < end |
| TimeBands.WrappingIsComplement | app.py:101-103 | a wrapping band covers exactly the minutes that the band with swapped boundaries does not |
| TimeBands.FirstMatch | app.py:96-103 | the index returned is the first band in list order covering t; None exactly when no band covers t |
| TimeBands.ResolveIndex | app.py:93-104 | the resolved band is a valid index; it is the first covering band when one exists, else band 0 |
| TimeBands.FirstMatchOnBoundaries | app.py:96-103 | first-match resolution depends only on the bands' boundaries, not on their learned state |
| TimeBands.ResolveOnBoundaries | app.py:93-104 | registries with the same boundaries resolve every minute to the same band |
| TimeBands.IndexOfName | app.py:214-215 | the index returned is the first band carrying the name; None exactly when no band has it |
| TimeBands.DefaultBands | app.py:46-50 | the shipped registry has three bands, all with parseable boundaries |
| TimeBands.DefaultBandMinutes | app.py:47-49 | the shipped boundaries are minutes 480–720, 840–1200 and 1260–300 |
| TimeBands.DefaultNightBand | app.py:49 | band3 (21:00–05:00) covers 23:30 and 02:00 and not 12:00; 23:30 and 02:00 resolve to band3; 12:00 lies in no band and falls back to band1 |
| Baseline.Threshold | app.py:182 | the level mu + k·sigma an event must exceed; Engine.IngestDecision states its role and Engine.WorkedExamples gives 135 for band1 |
| Baseline.NextMu | app.py:202 | the EMA mean; NextMuBetween and NextMuStrictlyBetween below state where it lies |
| Baseline.Learn | app.py:201-206 | learning sets the mean to the EMA value, keeps the spread ≥ 5.0 and at least the EMA spread (taken around the new mean), adds one to the counter, and keeps name, boundaries and k |
| Baseline.NextMuBetween | app.py:202 | for 0 ≤ alpha ≤ 1 the new mean lies between the old mean and the sample and is no farther from the sample than the old mean |
| Baseline.NextMuStrictlyBetween | app.py:202 | for 0 < alpha < 1 the new mean lies strictly between a distinct old mean and the sample; for alpha = 1 it is the sample |
| Baseline.LearnAtMean | app.py:202-205 | a sample at the mean leaves the mean unchanged and never widens the spread, which stays ≥ 5.0 |
| Baseline.LearnAllKeepsFloor | app.py:205-206 | after any sequence of learned samples the spread is ≥ 5.0, the counter grew by their number and k is unchanged |
| Feedback.ClampK | app.py:233 | the clamped k is ≥ k_min, and ≤ k_max when the bounds are ordered; an in-bounds k is kept; a low k becomes k_min, a high k becomes k_max |
| Feedback.Raise | app.py:244 | a false positive moves k to k + 0.1, capped at k_max, and never above k_max |
| Feedback.Lower | app.py:254 | a false negative moves k to k − 0.1, floored at k_min, and never below k_min |
| Feedback.NudgesKeepBounds | app.py:243-254 | either nudge keeps an in-bounds k in bounds |
| Feedback.NudgesClampOneSide | app.py:243-254 | with k_min ≤ k_max, k is still below k_min after a false positive iff it was more than 0.1 below it, and still above k_max after a false negative iff it was more than 0.1 above it; e.g. 1.0 → 1.1 < 2.0 and 5.0 → 4.9 > 4.0 |
| Feedback.RaiseNClosedForm | app.py:244 | n ≥ 1 false positives in a row give min(k_max, k + 0.1·n) |
| Feedback.LowerNClosedForm | app.py:254 | n ≥ 1 false negatives in a row give max(k_min, k − 0.1·n) |
| Feedback.RaiseSaturates | app.py:244 | from k = 3.0 with k_max = 4.0, one false positive gives 3.1, fifteen give 4.0, and no number of them exceeds 4.0 |
| Engine.DefaultKb | app.py:39-52 | the shipped state is well formed, every k is within [2.0, 4.0], no alert yet, counters at 0, three bands |
| Engine.NewBand | app.py:220-223 | a newly registered band has the given name and boundaries, mean 80, spread 15, k 3.0 and 0 samples |
| Engine.IsEvent | app.py:180-184 | the four conditions of an event; Engine.IngestDecision states them against the pre-sample state |
| Engine.IngestStep | app.py:161-209 | a sample is ignored iff a reading is out of range; ingestion keeps the registry well formed with the same boundaries, and never changes any k or the bounds |
| Engine.SetBandStep | app.py:211-225 | an upsert adds at most one band, adds none iff the name is already registered, and changes no global field |
| Engine.SetKStep | app.py:227-236 | set_k is NotFound iff no band has the name; otherwise it keeps every boundary and every global field |
| Engine.MarkFpStep | app.py:238-246 | a false positive keeps the registry well formed with the same boundaries, and keeps k_max |
| Engine.MarkFnStep | app.py:248-256 | a false negative keeps the registry well formed with the same boundaries, and keeps k_min |
| Engine.IngestIgnored | app.py:165-170 | a sample is ignored iff rms ∉ [0, 4095] or peak ∉ [0, 4095] (rms checked first); an ignored sample changes nothing |
| Engine.IngestDecision | app.py:172-184 | an in-range sample is an event iff samples ≥ warmup, now − last alert ≥ cooldown, rms > mu + k·sigma and peak > pico_min, all from the pre-sample state; the reported threshold is that pre-sample mu + k·sigma |
| Engine.WarmupNeverFires | app.py:180-184 | a band with fewer samples than the warmup count never fires |
| Engine.CooldownNeverFires | app.py:181-184 | a sample within the cooldown of the last alert never fires |
| Engine.EventOnlyStampsAlert | app.py:186-199 | an event sets the last-alert time to now and changes nothing else, no band included |
| Engine.AlertStartsCooldown | app.py:177-197 | after an alert at t1, no sample at a t2 with t2 − t1 < cooldown can fire, whatever its levels |
| Engine.NonEventLearns | app.py:201-209 | a non-event changes only the active band, which becomes exactly Learn(b, rms, alpha): mean (1 − alpha)·mu + alpha·rms, spread max(5.0, EMA spread around the new mean), counter + 1, name, boundaries and k kept; the mean lies between the old mean and rms when 0 ≤ alpha ≤ 1; other bands and globals unchanged |
| Engine.IngestKeepsRegistry | app.py:172-209 | ingestion keeps the registry well formed, resolves every minute to the same band as before and never changes any k or the bounds |
| Engine.WorkedExamples | app.py:180-206 | band1 (90, 15, k 3.0) warmed up: rms 140 / peak 200 fires against threshold 135; rms 100 / peak 50 does not, and leaves mean 91, spread 14.4, counter 301 |
| Engine.SetBandExisting | app.py:214-218 | upserting a known name changes only that band's start and end; its mean, spread, k and counter, the other bands and the globals are kept |
| Engine.SetBandNew | app.py:219-225 | upserting an unknown name appends it with mean 80, spread 15, k 3.0, 0 samples and leaves the existing bands and globals as they were |
| Engine.SetBandRegisters | app.py:211-225 | after an upsert the name is registered with the requested boundaries, a well-formed registry stays well formed, and at most one band is added |
| Engine.SetKClamps | app.py:227-236 | set_k is NotFound iff no band has the name; otherwise only the first band with the name changes, its k becoming exactly max(k_min, min(k_max, k)) (Feedback.ClampK): the request when in bounds, k_min below them, k_max above them, and k_min whenever the bounds are inverted |
| Engine.FeedbackKeepsResolution | app.py:238-256 | feedback keeps the registry well formed and every minute resolving to the same band |
| Engine.MarkFpEffect | app.py:238-246 | a false positive adds one to fp and changes only the active band's k, to min(k_max, k + 0.1): exactly +0.1 when that fits, exactly k_max otherwise (a k above k_max is brought down to it); nothing else changes |
| Engine.MarkFnEffect | app.py:248-256 | a false negative adds one to fn and changes only the active band's k, to max(k_min, k − 0.1): exactly −0.1 when that fits, exactly k_min otherwise (a k below k_min is brought up to it); nothing else changes |
| Engine.MarkFpTimes | app.py:238-246 | n false positives at one minute equal the closed form RaisedBy: fp grows by n, the band first resolved has its k nudged n times (RaiseN), and every other band and global field is unchanged |
| Engine.FalsePositiveAfter | app.py:238-246 | a false positive on any state with the same boundaries nudges the band the original state resolves to, adds one to fp, and changes nothing else |
| Engine.FalsePositivesSaturate | app.py:244 | on a band at k 3.0 with k_max 4.0, one false positive gives 3.1 and fifteen give exactly 4.0 |
| Engine.IngestKeepsSensitivityInBounds | app.py:161-209 | if every k is within [k_min, k_max], it still is after any ingest |
| Engine.ConfigurationKeepsSensitivityInBounds | app.py:211-236 | if every k is in bounds, it still is after set_k, and after set_band when 3.0 is within the bounds |
| Engine.FeedbackKeepsSensitivityInBounds | app.py:238-256 | if every k is in bounds, it still is after either kind of feedback |
| Engine.FalsePositiveBelowBounds | app.py:243-244 | in the shipped state with band1's k at 1.0, a false positive at 10:00 leaves it at 1.1, still below k_min = 2.0 |
| Agent.KnowledgeBase.constructor | app.py:39-52 | a fresh knowledge base holds exactly the shipped state |
| Agent.KnowledgeBase.Restore | app.py:65-66 | a knowledge base restored from a saved state holds exactly that state |
| Agent.KnowledgeBase.BandNow | app.py:93-104 | the loop returns the index of the first band covering the minute, else 0 (ResolveIndex) |
| Agent.KnowledgeBase.Ingest | app.py:161-209 | the new state and the answer are those of IngestStep from the old state; the registry stays well formed |
| Agent.KnowledgeBase.LearnSample | app.py:201-206 | band i becomes Learn of itself and nothing else changes |
| Agent.KnowledgeBase.SetBand | app.py:211-225 | the loop finds the first band with the name and edits it in place, or appends; the new state is SetBandStep of the old |
| Agent.KnowledgeBase.SetK | app.py:227-236 | an unknown name answers NotFound and changes nothing; otherwise the new state is SetKStep of the old and the answer is the edited band |
| Agent.KnowledgeBase.MarkFp | app.py:238-246 | the new state is MarkFpStep of the old, and the answer is the adjusted active band |
| Agent.KnowledgeBase.MarkFn | app.py:248-256 | the new state is MarkFnStep of the old, and the answer is the adjusted active band |

## Left out

- Authentication (`ensure_auth`) and the loading of settings and
  environment variables: these handle credentials and configuration I/O.
- Persistence (`load_json`, `save_json`, `persist_kb`): file I/O. A saved
  state enters the model only as the value given to `KnowledgeBase.Restore`,
  which must be well formed. The write that follows every mutation is not
  modelled.
- Alert delivery (`send_telegram`, the bot object, the alert message text):
  calls into a network library. The model keeps only the alert decision and
  the last-alert time.
- The `/status` endpoint: its reply is the state (`KnowledgeBase.State`)
  plus the clock and settings flags, which are I/O.
- Reply shapes: the `ok` flags and the band or band list that `set_band`
  returns. `SetK`, `MarkFp` and `MarkFn` return the edited band;
  `SetBand` returns nothing.
- Request validation: the "HH:MM" pattern becomes the precondition
  `IsHhmm`, with ASCII digits only. A pattern engine that counts other
  Unicode digits as `\d` is not modelled. The validators that refuse
  negative rms or peak are not modelled either; the handler's own range
  check covers those values.
- Missing keys in a hand-edited state file. A missing cooldown reads as 7
  and a missing last-alert time as 0. A band without a sample counter makes
  ingest raise where it tests the warm-up, before the learning step's own
  default of 0 could apply. The model's state always has every field.
- `Agent.KnowledgeBase.Ingest`, `MarkFp`, `MarkFn`: they require a
  non-empty registry whose boundaries are two-digit `HH:MM` strings. A
  hand-edited state file may hold other strings: some the source still
  parses (`"8:00"` as 480, `" 8:00"` as 480, `"-1:30"` as −30, `"123:00"`
  as 7380), and some make it raise (`"8h00"`, `"08:00:00"`). It also raises
  on an empty band list. Ingest answers an out-of-range sample "ignored"
  before it resolves a band, so it does so whatever the registry holds; the
  model states that answer only for a well-formed registry and excludes the
  others.
- Reading the clocks: the local minute of the day and the truncated epoch
  second are parameters.
- Floating point: all quantities are exact reals, so the 0.1 steps and the
  EMA carry no rounding. NaN readings, which the range check would ignore,
  do not exist in the model.
- Concurrency: the source does no locking, and races between requests on
  the shared state are outside a sequential model.
