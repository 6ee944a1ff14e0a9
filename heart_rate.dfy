/**
 * HeartRateStrategy: over the ECG readings in timestamp order, a rate alert
 * per reading outside [60, 100], a rhythm check over the five most recent
 * readings, and a search for the first reading above twice the mean of the
 * ten before it, kept as a sliding sum.
 */
module HeartRateStrategy {
  import opened Wrappers
  import opened Records

  const ECG_PEAK_FACTOR: real := 2.0
  const ECG_WINDOW: nat := 10
  const BRADYCARDIA_THRESHOLD: real := 60.0
  const TACHYCARDIA_THRESHOLD: real := 100.0
  const IRREGULARITY_THRESHOLD: real := 0.2
  const RHYTHM_READINGS: nat := 5

  const BRADYCARDIA: string := "Bradycardia Alert"
  const TACHYCARDIA: string := "Tachycardia Alert"
  const IRREGULAR_RHYTHM: string := "Irregular Rhythm Alert"
  const ABNORMAL_PEAK: string := "ECG Abnormal Peak Alert"

  // ---------------------------------------------------------------- rate

  /** The rate alert one reading raises: below 60, above 100, or none. */
  function RateOf(pid: string, r: Record): seq<Alert>
  {
    if r.value < BRADYCARDIA_THRESHOLD then [Alert(pid, BRADYCARDIA, r.timestamp)]
    else if r.value > TACHYCARDIA_THRESHOLD then [Alert(pid, TACHYCARDIA, r.timestamp)]
    else []
  }

  /** What the rate loop emits over s. */
  function RateAlerts(pid: string, s: seq<Record>): seq<Alert>
  {
    if s == [] then [] else RateAlerts(pid, s[..|s| - 1]) + RateOf(pid, s[|s| - 1])
  }

  predicate OutOfRate(r: Record) { !(BRADYCARDIA_THRESHOLD <= r.value <= TACHYCARDIA_THRESHOLD) }

  /** The readings outside [60, 100], in order. */
  function OutOfRateRecords(s: seq<Record>): seq<Record>
  {
    if s == [] then [] else (if OutOfRate(s[0]) then [s[0]] else []) + OutOfRateRecords(s[1..])
  }

  /** The alert a reading outside [60, 100] raises. */
  function RateAlertFor(pid: string, r: Record): Alert
  {
    Alert(pid, if r.value < BRADYCARDIA_THRESHOLD then BRADYCARDIA else TACHYCARDIA, r.timestamp)
  }

  lemma {:induction false} RateAlertsAppend(pid: string, a: seq<Record>, b: seq<Record>)
    ensures RateAlerts(pid, a + b) == RateAlerts(pid, a) + RateAlerts(pid, b)
    decreases |b|
  {
    if b == [] {
      assert a + b == a;
    } else {
      assert (a + b)[..|a + b| - 1] == a + b[..|b| - 1];
      RateAlertsAppend(pid, a, b[..|b| - 1]);
    }
  }

  /**
   * One alert per reading outside [60, 100], in order, at that reading's
   * timestamp: Bradycardia below 60, Tachycardia above 100, never both.
   */
  lemma {:induction false} RateAlertsAreOutOfRate(pid: string, s: seq<Record>)
    ensures |RateAlerts(pid, s)| == |OutOfRateRecords(s)|
    ensures forall k :: 0 <= k < |OutOfRateRecords(s)| ==>
      RateAlerts(pid, s)[k] == RateAlertFor(pid, OutOfRateRecords(s)[k])
  {
    if s != [] {
      var head := [s[0]];
      assert s == head + s[1..];
      RateAlertsAppend(pid, head, s[1..]);
      assert RateAlerts(pid, head) == RateOf(pid, s[0]) by {
        assert head[..0] == [];
      }
      RateAlertsAreOutOfRate(pid, s[1..]);
    }
  }

  // ---------------------------------------------------------------- rhythm

  /** The gaps between consecutive timestamps of w, as doubles. */
  function Intervals(w: seq<Record>): (d: seq<real>)
    ensures |w| > 0 ==> |d| == |w| - 1
  {
    if |w| < 2 then [] else seq(|w| - 1, k requires 0 <= k < |w| - 1 => (w[k + 1].timestamp - w[k].timestamp) as real)
  }

  function Sum(xs: seq<real>): real
  {
    if xs == [] then 0.0 else Sum(xs[..|xs| - 1]) + xs[|xs| - 1]
  }

  /** `Arrays.stream(intervals).average().orElse(0)`. */
  function Mean(xs: seq<real>): real
  {
    if xs == [] then 0.0 else Sum(xs) / |xs| as real
  }

  /**
   * `Math.abs(d - avg) / avg >= 0.2` in double arithmetic: for a positive
   * mean this is a deviation of at least 20%; a zero mean divides by zero,
   * giving NaN (never true) when d is 0 as well and +Infinity (true)
   * otherwise; a negative mean gives a ratio of at most 0.
   */
  predicate Deviates(d: real, avg: real)
  {
    if avg > 0.0 then (if d >= avg then d - avg else avg - d) >= IRREGULARITY_THRESHOLD * avg
    else if avg == 0.0 then d != 0.0
    else false
  }

  /** isIrregular: some interval deviates from the mean interval. */
  predicate Irregular(w: seq<Record>)
  {
    exists k :: 0 <= k < |Intervals(w)| && Deviates(Intervals(w)[k], Mean(Intervals(w)))
  }

  /** The rhythm check: the five most recent readings, at the newest one. */
  function RhythmAlerts(pid: string, s: seq<Record>): seq<Alert>
  {
    if |s| >= RHYTHM_READINGS && Irregular(s[|s| - RHYTHM_READINGS..])
    then [Alert(pid, IRREGULAR_RHYTHM, s[|s| - 1].timestamp)]
    else []
  }

  lemma {:induction false} SumConstant(xs: seq<real>, c: real)
    requires forall k :: 0 <= k < |xs| ==> xs[k] == c
    ensures Sum(xs) == |xs| as real * c
  {
    if xs != [] {
      SumConstant(xs[..|xs| - 1], c);
    }
  }

  /** Evenly spaced readings are regular. */
  lemma EvenSpacingIsRegular(w: seq<Record>, gap: int)
    requires |w| >= 2
    requires forall k :: 0 <= k < |w| - 1 ==> w[k + 1].timestamp - w[k].timestamp == gap
    ensures !Irregular(w)
  {
    var d := Intervals(w);
    var g := gap as real;
    forall k | 0 <= k < |d| ensures d[k] == g {
    }
    MeanOfConstant(d, g);
    forall k | 0 <= k < |d| ensures !Deviates(d[k], Mean(d)) {
    }
  }

  lemma MeanOfConstant(xs: seq<real>, c: real)
    requires xs != []
    requires forall k :: 0 <= k < |xs| ==> xs[k] == c
    ensures Mean(xs) == c
  {
    SumConstant(xs, c);
    DivideOut(|xs| as real, c);
  }

  lemma DivideOut(n: real, c: real)
    requires n > 0.0
    ensures n * c / n == c
  {
  }

  /**
   * On readings in timestamp order a zero mean means all five share one
   * timestamp; Java's 0/0 is NaN, so that is not irregular.
   */
  lemma SortedZeroMeanIsRegular(w: seq<Record>)
    requires |w| >= 2 && SortedByTime(w)
    requires Mean(Intervals(w)) == 0.0
    ensures !Irregular(w)
  {
    var d := Intervals(w);
    assert forall k :: 0 <= k < |d| ==> d[k] >= 0.0 by {
      forall k | 0 <= k < |d| ensures d[k] >= 0.0 {
        assert w[k].timestamp <= w[k + 1].timestamp;
      }
    }
    SumNonNegZero(d);
  }

  lemma {:induction false} SumNonNegZero(xs: seq<real>)
    requires forall k :: 0 <= k < |xs| ==> xs[k] >= 0.0
    requires Sum(xs) == 0.0
    ensures forall k :: 0 <= k < |xs| ==> xs[k] == 0.0
  {
    if xs != [] {
      var init := xs[..|xs| - 1];
      SumNonNegative(init);
      SumNonNegZero(init);
      forall k | 0 <= k < |xs| ensures xs[k] == 0.0 {
        if k < |xs| - 1 { assert xs[k] == init[k]; }
      }
    }
  }

  lemma {:induction false} SumNonNegative(xs: seq<real>)
    requires forall k :: 0 <= k < |xs| ==> xs[k] >= 0.0
    ensures Sum(xs) >= 0.0
  {
    if xs != [] { SumNonNegative(xs[..|xs| - 1]); }
  }

  /**
   * Alternating 1200 ms and 800 ms intervals deviate by exactly 20% from
   * their 1000 ms mean, which is enough: the comparison is inclusive.
   */
  lemma AlternatingIntervalsAreIrregular(w: seq<Record>)
    requires |w| == 5
    requires w[1].timestamp - w[0].timestamp == 1200 && w[2].timestamp - w[1].timestamp == 800
    requires w[3].timestamp - w[2].timestamp == 1200 && w[4].timestamp - w[3].timestamp == 800
    ensures Irregular(w)
  {
    var d := Intervals(w);
    assert d == [1200.0, 800.0, 1200.0, 800.0];
    assert d[..1][..0] == [];
    assert Sum(d[..1]) == 1200.0;
    assert d[..2][..1] == d[..1];
    assert Sum(d[..2]) == 2000.0;
    assert d[..3][..2] == d[..2];
    assert Sum(d[..3]) == 3200.0;
    assert d[..|d| - 1] == d[..3];
    assert Sum(d) == 4000.0;
    assert Deviates(d[0], Mean(d));
  }

  /** isIrregular: fills the interval array, then averages and tests each interval. */
  method IsIrregular(window: seq<Record>) returns (irregular: bool)
    requires |window| >= 1
    ensures irregular == Irregular(window)
  {
    var intervals := new real[|window| - 1];
    for i := 1 to |window|
      invariant forall k :: 0 <= k < i - 1 ==> intervals[k] == (window[k + 1].timestamp - window[k].timestamp) as real
    {
      intervals[i - 1] := (window[i].timestamp - window[i - 1].timestamp) as real;
    }
    assert intervals[..] == Intervals(window);
    var avg := Mean(intervals[..]);
    irregular := exists k | 0 <= k < intervals.Length :: Deviates(intervals[k], avg);
  }

  // ---------------------------------------------------------------- peak

  /** The sum of the values of xs. */
  function SumValues(xs: seq<Record>): real
  {
    if xs == [] then 0.0 else SumValues(xs[..|xs| - 1]) + xs[|xs| - 1].value
  }

  /** The sum of the ten values before position i. */
  function WindowSum(s: seq<Record>, i: nat): real
    requires ECG_WINDOW <= i <= |s|
  {
    SumValues(s[i - ECG_WINDOW..i])
  }

  /** Reading i exceeds twice the mean of the ten readings before it. */
  predicate IsPeak(s: seq<Record>, i: nat)
    requires ECG_WINDOW <= i < |s|
  {
    s[i].value > WindowSum(s, i) / ECG_WINDOW as real * ECG_PEAK_FACTOR
  }

  function FirstPeakFrom(s: seq<Record>, i: nat): (r: Option<nat>)
    requires ECG_WINDOW <= i
    ensures r.Some? ==> i <= r.value < |s|
    decreases |s| - i
  {
    if i >= |s| then None
    else if IsPeak(s, i) then Some(i)
    else FirstPeakFrom(s, i + 1)
  }

  /** The first position from 10 on that is a peak. */
  function FirstPeak(s: seq<Record>): (r: Option<nat>)
    ensures r.Some? ==> ECG_WINDOW <= r.value < |s|
  {
    FirstPeakFrom(s, ECG_WINDOW)
  }

  lemma {:induction false} FirstPeakFromSpec(s: seq<Record>, i: nat)
    requires ECG_WINDOW <= i
    ensures FirstPeakFrom(s, i).Some? ==>
              IsPeak(s, FirstPeakFrom(s, i).value) && forall j :: i <= j < FirstPeakFrom(s, i).value ==> !IsPeak(s, j)
    ensures FirstPeakFrom(s, i).None? <==> forall j :: i <= j < |s| ==> !IsPeak(s, j)
    decreases |s| - i
  {
    if i < |s| && !IsPeak(s, i) {
      FirstPeakFromSpec(s, i + 1);
    }
  }

  /** FirstPeak is the first peak, and None means no position from 10 on is one. */
  lemma FirstPeakSpec(s: seq<Record>)
    ensures FirstPeak(s).Some? ==>
              IsPeak(s, FirstPeak(s).value) && forall j :: ECG_WINDOW <= j < FirstPeak(s).value ==> !IsPeak(s, j)
    ensures FirstPeak(s).None? <==> forall j :: ECG_WINDOW <= j < |s| ==> !IsPeak(s, j)
  {
    FirstPeakFromSpec(s, ECG_WINDOW);
  }

  /** The peak check: at most one alert, at the first peak. */
  function PeakAlerts(pid: string, s: seq<Record>): seq<Alert>
  {
    match FirstPeak(s)
    case None => []
    case Some(i) => [Alert(pid, ABNORMAL_PEAK, s[i].timestamp)]
  }

  /** Ten or fewer readings never reach the peak check. */
  lemma ShortSeriesHasNoPeak(pid: string, s: seq<Record>)
    requires |s| <= ECG_WINDOW
    ensures PeakAlerts(pid, s) == []
  {
  }

  lemma {:induction false} SumValuesCons(x: Record, xs: seq<Record>)
    ensures SumValues([x] + xs) == x.value + SumValues(xs)
    decreases |xs|
  {
    if xs != [] {
      var init := xs[..|xs| - 1];
      SumValuesCons(x, init);
      assert ([x] + xs)[..|[x] + xs| - 1] == [x] + init;
    }
  }

  /** Subtracting the oldest value and adding the newest moves the window one place. */
  lemma SlideWindow(s: seq<Record>, i: nat)
    requires ECG_WINDOW <= i < |s|
    ensures WindowSum(s, i + 1) == WindowSum(s, i) - s[i - ECG_WINDOW].value + s[i].value
  {
    var whole := s[i - ECG_WINDOW..i + 1];
    assert whole[..|whole| - 1] == s[i - ECG_WINDOW..i];
    assert whole == [s[i - ECG_WINDOW]] + s[i + 1 - ECG_WINDOW..i + 1];
    SumValuesCons(s[i - ECG_WINDOW], s[i + 1 - ECG_WINDOW..i + 1]);
  }

  lemma {:induction false} SumValuesConstant(xs: seq<Record>, c: real)
    requires forall k :: 0 <= k < |xs| ==> xs[k].value == c
    ensures SumValues(xs) == |xs| as real * c
  {
    if xs != [] { SumValuesConstant(xs[..|xs| - 1], c); }
  }

  /** Ten readings of 1.0 then one of 3.0: the eleventh raises the peak alert. */
  lemma PeakAfterTenOnes(pid: string, s: seq<Record>)
    requires |s| == 11
    requires forall k :: 0 <= k < 10 ==> s[k].value == 1.0
    requires s[10].value == 3.0
    ensures PeakAlerts(pid, s) == [Alert(pid, ABNORMAL_PEAK, s[10].timestamp)]
  {
    SumValuesConstant(s[0..10], 1.0);
    assert IsPeak(s, 10);
  }

  // ---------------------------------------------------------------- checkAlert

  /** checkAlert: rate alerts, then the rhythm alert, then the peak alert. */
  function HeartRateAlerts(pid: string, rs: seq<Record>): seq<Alert>
  {
    var s := SortByTime(OfType(rs, ECG));
    RateAlerts(pid, s) + RhythmAlerts(pid, s) + PeakAlerts(pid, s)
  }

  /** Only records typed exactly "ECG" count: "HeartRate" readings raise nothing. */
  lemma NoEcgNoAlerts(pid: string, rs: seq<Record>)
    requires forall k :: 0 <= k < |rs| ==> rs[k].recordType != ECG
    ensures HeartRateAlerts(pid, rs) == []
  {
    OfTypeNone(rs, ECG);
  }

  /** The peak search with its sliding sum, after the first ten readings. */
  method CheckPeak(pid: string, ecgRecords: seq<Record>) returns (alerts: seq<Alert>)
    requires |ecgRecords| > ECG_WINDOW
    ensures alerts == PeakAlerts(pid, ecgRecords)
  {
    alerts := [];
    var windowSum := 0.0;
    for j := 0 to ECG_WINDOW
      invariant windowSum == SumValues(ecgRecords[..j])
    {
      assert ecgRecords[..j + 1][..j] == ecgRecords[..j];
      windowSum := windowSum + ecgRecords[j].value;
    }
    var i := ECG_WINDOW;
    while i < |ecgRecords|
      invariant ECG_WINDOW <= i <= |ecgRecords|
      invariant windowSum == WindowSum(ecgRecords, i)
      invariant FirstPeakFrom(ecgRecords, i) == FirstPeak(ecgRecords)
    {
      var avg := windowSum / ECG_WINDOW as real;
      var val := ecgRecords[i].value;
      if val > avg * ECG_PEAK_FACTOR {
        alerts := [Alert(pid, ABNORMAL_PEAK, ecgRecords[i].timestamp)];
        break;
      }
      SlideWindow(ecgRecords, i);
      windowSum := windowSum - ecgRecords[i - ECG_WINDOW].value;
      windowSum := windowSum + val;
      i := i + 1;
    }
  }

  /** The rate loop of checkAlert: one alert per reading outside [60, 100]. */
  method CheckRate(pid: string, ecgRecords: seq<Record>) returns (alerts: seq<Alert>)
    ensures alerts == RateAlerts(pid, ecgRecords)
  {
    alerts := [];
    for i := 0 to |ecgRecords|
      invariant alerts == RateAlerts(pid, ecgRecords[..i])
    {
      var record := ecgRecords[i];
      var hr := record.value;
      if hr < BRADYCARDIA_THRESHOLD {
        alerts := alerts + [Alert(pid, BRADYCARDIA, record.timestamp)];
      } else if hr > TACHYCARDIA_THRESHOLD {
        alerts := alerts + [Alert(pid, TACHYCARDIA, record.timestamp)];
      }
      assert ecgRecords[..i + 1][..i] == ecgRecords[..i];
    }
    assert ecgRecords[..|ecgRecords|] == ecgRecords;
  }

  /** The rhythm check of checkAlert, over the five most recent readings. */
  method CheckRhythm(pid: string, ecgRecords: seq<Record>) returns (alerts: seq<Alert>)
    ensures alerts == RhythmAlerts(pid, ecgRecords)
  {
    alerts := [];
    if |ecgRecords| >= RHYTHM_READINGS {
      var window := ecgRecords[|ecgRecords| - RHYTHM_READINGS..];
      var irregular := IsIrregular(window);
      if irregular {
        alerts := [Alert(pid, IRREGULAR_RHYTHM, window[|window| - 1].timestamp)];
      }
    }
  }

  /** checkAlert. */
  method CheckAlert(patientId: int, records: seq<Record>) returns (alerts: seq<Alert>)
    ensures alerts == HeartRateAlerts(IdString(patientId), records)
  {
    var pid := IdString(patientId);
    var ecgRecords := SortByTime(OfType(records, ECG));
    alerts := CheckRate(pid, ecgRecords);
    var rhythm := CheckRhythm(pid, ecgRecords);
    alerts := alerts + rhythm;
    if |ecgRecords| <= ECG_WINDOW {
      ShortSeriesHasNoPeak(pid, ecgRecords);
      return;
    }
    var peak := CheckPeak(pid, ecgRecords);
    alerts := alerts + peak;
  }
}
