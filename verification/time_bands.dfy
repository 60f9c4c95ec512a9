/** Time-of-day bands: the "HH:MM" boundary format, the band record and the
    first-match resolution of the band active at a given minute of the day. */
module TimeBands {

  datatype Option<T> = None | Some(value: T)

  // ---------------------------------------------------------------------------
  // "HH:MM" boundaries
  // ---------------------------------------------------------------------------

  predicate IsDigit(c: char) { '0' <= c <= '9' }

  function DigitValue(c: char): (d: nat)
    requires IsDigit(c)
    ensures d < 10
  {
    (c as int) - ('0' as int)
  }

  function DigitChar(d: nat): (c: char)
    requires d < 10
    ensures IsDigit(c) && DigitValue(c) == d
  {
    (('0' as int) + d) as char
  }

  /** The shape a band boundary is accepted in: two digits, a colon, two
      digits. Nothing bounds the hour to 23 or the minute to 59. */
  predicate IsHhmm(s: string)
  {
    |s| == 5 && IsDigit(s[0]) && IsDigit(s[1]) && s[2] == ':' && IsDigit(s[3]) && IsDigit(s[4])
  }

  function HourField(s: string): nat
    requires IsHhmm(s)
  {
    DigitValue(s[0]) * 10 + DigitValue(s[1])
  }

  function MinuteField(s: string): nat
    requires IsHhmm(s)
  {
    DigitValue(s[3]) * 10 + DigitValue(s[4])
  }

  /** Minutes since midnight denoted by an "HH:MM" string: hours times 60
      plus minutes, whatever the fields hold. */
  function HhmmToMin(s: string): (m: nat)
    requires IsHhmm(s)
    ensures m == HourField(s) * 60 + MinuteField(s)
    ensures m <= 99 * 60 + 99
  {
    (DigitValue(s[0]) * 10 + DigitValue(s[1])) * 60 + DigitValue(s[3]) * 10 + DigitValue(s[4])
  }

  /** The "HH:MM" text of an hour and a minute field, each below 100. */
  function Hhmm(h: nat, m: nat): (s: string)
    requires h < 100 && m < 100
    ensures IsHhmm(s)
  {
    [DigitChar(h / 10), DigitChar(h % 10), ':', DigitChar(m / 10), DigitChar(m % 10)]
  }

  /** Parsing the text of (h, m) gives h * 60 + m. */
  lemma HhmmToMinOfHhmm(h: nat, m: nat)
    requires h < 100 && m < 100
    ensures HourField(Hhmm(h, m)) == h && MinuteField(Hhmm(h, m)) == m
    ensures HhmmToMin(Hhmm(h, m)) == h * 60 + m
  {
    var s := Hhmm(h, m);
    assert DigitValue(s[0]) == h / 10 && DigitValue(s[1]) == h % 10;
    assert DigitValue(s[3]) == m / 10 && DigitValue(s[4]) == m % 10;
  }

  /** Every accepted string is the text of its own two fields. */
  lemma HhmmOfFields(s: string)
    requires IsHhmm(s)
    ensures HourField(s) < 100 && MinuteField(s) < 100
    ensures Hhmm(HourField(s), MinuteField(s)) == s
  {
    var t := Hhmm(HourField(s), MinuteField(s));
    assert HourField(s) / 10 == DigitValue(s[0]) && HourField(s) % 10 == DigitValue(s[1]);
    assert MinuteField(s) / 10 == DigitValue(s[3]) && MinuteField(s) % 10 == DigitValue(s[4]);
    assert forall i :: 0 <= i < 5 && i != 2 ==> DigitValue(t[i]) == DigitValue(s[i]);
    assert forall i :: 0 <= i < 5 && i != 2 ==> t[i] == s[i];
  }

  /** The accepted format reaches past the end of the day: "99:99" is
      minute 6039, and "12:75" denotes the same minute as "13:15". */
  lemma HhmmNotBoundedToOneDay()
    ensures IsHhmm("99:99") && HhmmToMin("99:99") == 6039 && HhmmToMin("99:99") >= 1440
    ensures IsHhmm("12:75") && IsHhmm("13:15") && HhmmToMin("12:75") == HhmmToMin("13:15")
  {
    HhmmToMinOfHhmm(99, 99);
    HhmmToMinOfHhmm(12, 75);
    HhmmToMinOfHhmm(13, 15);
    assert Hhmm(99, 99) == "99:99";
    assert Hhmm(12, 75) == "12:75";
    assert Hhmm(13, 15) == "13:15";
  }

  // ---------------------------------------------------------------------------
  // Bands
  // ---------------------------------------------------------------------------

  /** A named time-of-day interval with its learned baseline: mean rms `mu`,
      spread `sigma`, sensitivity multiplier `k` and the number of
      non-event samples learned so far. */
  datatype Band = Band(name: string, start: string, end: string,
                       mu: real, sigma: real, k: real, samples: nat)

  /** A band whose boundaries can be parsed. */
  predicate WellFormed(b: Band)
  {
    IsHhmm(b.start) && IsHhmm(b.end)
  }

  predicate AllWellFormed(bands: seq<Band>)
  {
    forall i :: 0 <= i < |bands| ==> WellFormed(bands[i])
  }

  /** Whether minute `t` falls in band `b`: a band whose end lies before its
      start wraps past midnight. */
  predicate Covers(b: Band, t: int)
    requires WellFormed(b)
  {
    var s, e := HhmmToMin(b.start), HhmmToMin(b.end);
    (e >= s && s <= t < e) || (e < s && (t >= s || t < e))
  }

  /** Both readings of a band, stated separately. */
  lemma CoversCases(b: Band, t: int)
    requires WellFormed(b)
    ensures HhmmToMin(b.end) >= HhmmToMin(b.start) ==>
              (Covers(b, t) <==> HhmmToMin(b.start) <= t < HhmmToMin(b.end))
    ensures HhmmToMin(b.end) < HhmmToMin(b.start) ==>
              (Covers(b, t) <==> t >= HhmmToMin(b.start) || t < HhmmToMin(b.end))
  {
  }

  /** A wrapping band covers exactly the minutes that the plain band with its
      boundaries swapped leaves out. */
  lemma WrappingIsComplement(b: Band, t: int)
    requires WellFormed(b) && HhmmToMin(b.end) < HhmmToMin(b.start)
    ensures Covers(b, t) <==> !Covers(b.(start := b.end, end := b.start), t)
  {
  }

  /** The index of the first band, in list order, that covers `t`. */
  function FirstMatch(bands: seq<Band>, t: int): (r: Option<nat>)
    requires AllWellFormed(bands)
    ensures r.Some? ==> r.value < |bands| && Covers(bands[r.value], t)
    ensures r.Some? ==> forall j :: 0 <= j < r.value ==> !Covers(bands[j], t)
    ensures r.None? <==> forall j :: 0 <= j < |bands| ==> !Covers(bands[j], t)
  {
    if |bands| == 0 then None
    else if Covers(bands[0], t) then Some(0)
    else match FirstMatch(bands[1..], t)
      case None => None
      case Some(i) => Some(i + 1)
  }

  /** The band active at minute `t`: the first one covering it, or the first
      band of the list when none does. */
  function ResolveIndex(bands: seq<Band>, t: int): (i: nat)
    requires |bands| > 0 && AllWellFormed(bands)
    ensures i < |bands|
    ensures (exists j :: 0 <= j < |bands| && Covers(bands[j], t)) ==>
              Covers(bands[i], t) && forall j :: 0 <= j < i ==> !Covers(bands[j], t)
    ensures (forall j :: 0 <= j < |bands| ==> !Covers(bands[j], t)) ==> i == 0
  {
    match FirstMatch(bands, t)
    case Some(i) => i
    case None => 0
  }

  /** Two registries listing the same boundaries in the same order. */
  predicate SameBoundaries(a: seq<Band>, b: seq<Band>)
  {
    |a| == |b| && forall j :: 0 <= j < |a| ==> a[j].start == b[j].start && a[j].end == b[j].end
  }

  /** Resolution looks at boundaries only: two registries with the same
      boundaries resolve every minute alike. */
  lemma {:induction false} FirstMatchOnBoundaries(a: seq<Band>, b: seq<Band>, t: int)
    requires AllWellFormed(a) && SameBoundaries(a, b)
    ensures AllWellFormed(b) && FirstMatch(a, t) == FirstMatch(b, t)
  {
    assert forall j :: 0 <= j < |b| ==> WellFormed(a[j]) && WellFormed(b[j]);
    if |a| > 0 {
      assert Covers(a[0], t) == Covers(b[0], t);
      FirstMatchOnBoundaries(a[1..], b[1..], t);
    }
  }

  lemma ResolveOnBoundaries(a: seq<Band>, b: seq<Band>, t: int)
    requires |a| > 0 && AllWellFormed(a) && SameBoundaries(a, b)
    ensures AllWellFormed(b) && ResolveIndex(a, t) == ResolveIndex(b, t)
  {
    FirstMatchOnBoundaries(a, b, t);
  }

  /** The index of the first band named `name`. */
  function IndexOfName(bands: seq<Band>, name: string): (r: Option<nat>)
    ensures r.Some? ==> r.value < |bands| && bands[r.value].name == name
    ensures r.Some? ==> forall j :: 0 <= j < r.value ==> bands[j].name != name
    ensures r.None? <==> forall j :: 0 <= j < |bands| ==> bands[j].name != name
  {
    if |bands| == 0 then None
    else if bands[0].name == name then Some(0)
    else match IndexOfName(bands[1..], name)
      case None => None
      case Some(i) => Some(i + 1)
  }

  // ---------------------------------------------------------------------------
  // The shipped registry
  // ---------------------------------------------------------------------------

  function DefaultBands(): (bands: seq<Band>)
    ensures |bands| == 3 && AllWellFormed(bands)
  {
    [Band("band1", "08:00", "12:00", 90.0, 15.0, 3.0, 0),
     Band("band2", "14:00", "20:00", 110.0, 20.0, 3.0, 0),
     Band("band3", "21:00", "05:00", 60.0, 10.0, 3.5, 0)]
  }

  /** The boundaries of the shipped bands, in minutes. */
  lemma DefaultBandMinutes()
    ensures var bands := DefaultBands();
      HhmmToMin(bands[0].start) == 480 && HhmmToMin(bands[0].end) == 720 &&
      HhmmToMin(bands[1].start) == 840 && HhmmToMin(bands[1].end) == 1200 &&
      HhmmToMin(bands[2].start) == 1260 && HhmmToMin(bands[2].end) == 300
  {
    HhmmToMinOfHhmm(8, 0);
    HhmmToMinOfHhmm(12, 0);
    HhmmToMinOfHhmm(14, 0);
    HhmmToMinOfHhmm(20, 0);
    HhmmToMinOfHhmm(21, 0);
    HhmmToMinOfHhmm(5, 0);
    assert Hhmm(8, 0) == "08:00" && Hhmm(12, 0) == "12:00" && Hhmm(14, 0) == "14:00";
    assert Hhmm(20, 0) == "20:00" && Hhmm(21, 0) == "21:00" && Hhmm(5, 0) == "05:00";
  }

  /** The night band 21:00-05:00 wraps: it covers 23:30 and 02:00 but not
      12:00; 23:30 and 02:00 resolve to it, while 12:00 lies in no shipped
      band (band1 ends at 12:00 exclusive) and falls back to band1. */
  lemma DefaultNightBand()
    ensures var bands := DefaultBands();
      Covers(bands[2], 1410) && Covers(bands[2], 120) && !Covers(bands[2], 720) &&
      ResolveIndex(bands, 1410) == 2 && ResolveIndex(bands, 120) == 2 &&
      ResolveIndex(bands, 720) == 0 && !Covers(bands[0], 720)
  {
    var bands := DefaultBands();
    DefaultBandMinutes();
    assert !Covers(bands[0], 1410) && !Covers(bands[1], 1410) && Covers(bands[2], 1410);
    assert !Covers(bands[0], 120) && !Covers(bands[1], 120) && Covers(bands[2], 120);
    assert !Covers(bands[0], 720) && !Covers(bands[1], 720) && !Covers(bands[2], 720);
  }
}
