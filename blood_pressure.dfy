/**
 * BloodPressureStrategy: a critical-value check on every systolic and
 * diastolic reading, in list order, then a trend check over every
 * consecutive triple of the timestamp-sorted readings of each type.
 */
module BloodPressureStrategy {
  import opened Records

  const SYSTOLIC_UPPER: real := 180.0
  const SYSTOLIC_LOWER: real := 90.0
  const DIASTOLIC_UPPER: real := 120.0
  const DIASTOLIC_LOWER: real := 60.0
  const BP_TREND_THRESHOLD: real := 10.0

  const CRITICAL_SYSTOLIC: string := "Critical Systolic"
  const CRITICAL_DIASTOLIC: string := "Critical Diastolic"
  const TREND_ALERT: string := "Blood Pressure Trend Alert"

  predicate IsCriticalSystolic(r: Record)
  {
    r.recordType == SYSTOLIC && (r.value > SYSTOLIC_UPPER || r.value < SYSTOLIC_LOWER)
  }

  predicate IsCriticalDiastolic(r: Record)
  {
    r.recordType == DIASTOLIC && (r.value > DIASTOLIC_UPPER || r.value < DIASTOLIC_LOWER)
  }

  predicate IsCritical(r: Record) { IsCriticalSystolic(r) || IsCriticalDiastolic(r) }

  /** The alert a critical reading raises. */
  function CriticalAlertFor(pid: string, r: Record): Alert
  {
    Alert(pid, if r.recordType == SYSTOLIC then CRITICAL_SYSTOLIC else CRITICAL_DIASTOLIC, r.timestamp)
  }

  /** What one pass of the critical-value loop emits for one record. */
  function CriticalOf(pid: string, r: Record): seq<Alert>
  {
    if IsCritical(r) then [CriticalAlertFor(pid, r)] else []
  }

  /** What the critical-value loop emits over rs. */
  function CriticalAlerts(pid: string, rs: seq<Record>): seq<Alert>
  {
    if rs == [] then [] else CriticalAlerts(pid, rs[..|rs| - 1]) + CriticalOf(pid, rs[|rs| - 1])
  }

  /** The critical readings of rs, in list order: an independent description of the loop. */
  function CriticalRecords(rs: seq<Record>): (c: seq<Record>)
    ensures forall x :: x in c <==> x in rs && IsCritical(x)
  {
    if rs == [] then [] else (if IsCritical(rs[0]) then [rs[0]] else []) + CriticalRecords(rs[1..])
  }

  lemma {:induction false} CriticalAlertsAppend(pid: string, a: seq<Record>, b: seq<Record>)
    ensures CriticalAlerts(pid, a + b) == CriticalAlerts(pid, a) + CriticalAlerts(pid, b)
    decreases |b|
  {
    if b == [] {
      assert a + b == a;
    } else {
      assert (a + b)[..|a + b| - 1] == a + b[..|b| - 1];
      CriticalAlertsAppend(pid, a, b[..|b| - 1]);
    }
  }

  /**
   * Exactly one alert per critical reading, no deduplication, in list order,
   * carrying that reading's timestamp; other readings raise nothing.
   */
  lemma {:induction false} CriticalAlertsAreCriticalRecords(pid: string, rs: seq<Record>)
    ensures |CriticalAlerts(pid, rs)| == |CriticalRecords(rs)|
    ensures forall k :: 0 <= k < |CriticalRecords(rs)| ==>
      CriticalAlerts(pid, rs)[k] == CriticalAlertFor(pid, CriticalRecords(rs)[k])
  {
    if rs != [] {
      var head := [rs[0]];
      assert rs == head + rs[1..];
      CriticalAlertsAppend(pid, head, rs[1..]);
      assert CriticalAlerts(pid, head) == CriticalOf(pid, rs[0]) by {
        assert head[..0] == [];
      }
      CriticalAlertsAreCriticalRecords(pid, rs[1..]);
    }
  }

  /** The values 90 and 180 (systolic), 60 and 120 (diastolic) are not critical. */
  lemma CriticalBounds(r: Record)
    ensures r.recordType == SYSTOLIC ==> (IsCritical(r) <==> !(90.0 <= r.value <= 180.0))
    ensures r.recordType == DIASTOLIC ==> (IsCritical(r) <==> !(60.0 <= r.value <= 120.0))
    ensures r.recordType != SYSTOLIC && r.recordType != DIASTOLIC ==> !IsCritical(r)
  {
  }

  predicate Rising(v1: real, v2: real, v3: real)
  {
    v2 - v1 > BP_TREND_THRESHOLD && v3 - v2 > BP_TREND_THRESHOLD
  }

  predicate Falling(v1: real, v2: real, v3: real)
  {
    v1 - v2 > BP_TREND_THRESHOLD && v2 - v3 > BP_TREND_THRESHOLD
  }

  predicate IsTrend(s: seq<Record>, i: int)
    requires 0 <= i && i + 2 < |s|
  {
    Rising(s[i].value, s[i + 1].value, s[i + 2].value) || Falling(s[i].value, s[i + 1].value, s[i + 2].value)
  }

  /** Number of consecutive triples of s: the trip count of `i < size - 2`. */
  function TripleCount(s: seq<Record>): nat
  {
    if |s| < 3 then 0 else |s| - 2
  }

  /** The alerts of the triples starting at 0 .. n-1. */
  function TrendsUpTo(pid: string, s: seq<Record>, n: nat): seq<Alert>
    requires n <= TripleCount(s)
  {
    if n == 0 then []
    else TrendsUpTo(pid, s, n - 1) + (if IsTrend(s, n - 1) then [Alert(pid, TREND_ALERT, s[n + 1].timestamp)] else [])
  }

  /** checkTrend over a list already filtered and sorted. */
  function TrendAlerts(pid: string, s: seq<Record>): seq<Alert>
  {
    TrendsUpTo(pid, s, TripleCount(s))
  }

  /** checkTrend(patient, records, type). */
  function TypeTrendAlerts(pid: string, rs: seq<Record>, t: string): seq<Alert>
  {
    TrendAlerts(pid, SortByTime(OfType(rs, t)))
  }

  /** checkAlert: critical alerts, then systolic trends, then diastolic trends. */
  function BloodPressureAlerts(pid: string, rs: seq<Record>): seq<Alert>
  {
    CriticalAlerts(pid, rs) + TypeTrendAlerts(pid, rs, SYSTOLIC) + TypeTrendAlerts(pid, rs, DIASTOLIC)
  }

  lemma {:induction false} TrendsUpToBound(pid: string, s: seq<Record>, n: nat)
    requires n <= TripleCount(s)
    ensures |TrendsUpTo(pid, s, n)| <= n
  {
    if n > 0 { TrendsUpToBound(pid, s, n - 1); }
  }

  /** Fewer than three readings raise no trend; otherwise at most one per triple. */
  lemma TrendAlertsBound(pid: string, s: seq<Record>)
    ensures |s| < 3 ==> TrendAlerts(pid, s) == []
    ensures |TrendAlerts(pid, s)| <= TripleCount(s)
  {
    TrendsUpToBound(pid, s, TripleCount(s));
  }

  lemma {:induction false} TrendsUpToMembership(pid: string, s: seq<Record>, n: nat, a: Alert)
    requires n <= TripleCount(s)
    ensures a in TrendsUpTo(pid, s, n) <==>
      exists i :: 0 <= i < n && IsTrend(s, i) && a == Alert(pid, TREND_ALERT, s[i + 2].timestamp)
  {
    if n > 0 { TrendsUpToMembership(pid, s, n - 1, a); }
  }

  /**
   * A trend alert is exactly a triple whose two steps both exceed 10 in the
   * same direction, timestamped at the triple's third reading.
   */
  lemma TrendAlertMembership(pid: string, s: seq<Record>, a: Alert)
    ensures a in TrendAlerts(pid, s) <==>
      exists i :: 0 <= i && i + 2 < |s| && IsTrend(s, i) && a == Alert(pid, TREND_ALERT, s[i + 2].timestamp)
  {
    TrendsUpToMembership(pid, s, TripleCount(s), a);
  }

  /** The start indices of the trend triples among the first n, in increasing order. */
  function TrendStartsUpTo(s: seq<Record>, n: nat): (t: seq<nat>)
    requires n <= TripleCount(s)
    ensures forall k :: 0 <= k < |t| ==> t[k] < n
  {
    if n == 0 then []
    else TrendStartsUpTo(s, n - 1) + (if IsTrend(s, n - 1) then [n - 1] else [])
  }

  /** The start indices of all trend triples of s. */
  function TrendStarts(s: seq<Record>): seq<nat>
  {
    TrendStartsUpTo(s, TripleCount(s))
  }

  /** The starts are strictly increasing, and an index is one exactly when its triple is a trend. */
  lemma {:induction false} TrendStartsUpToSpec(s: seq<Record>, n: nat)
    requires n <= TripleCount(s)
    ensures forall a, b :: 0 <= a < b < |TrendStartsUpTo(s, n)| ==> TrendStartsUpTo(s, n)[a] < TrendStartsUpTo(s, n)[b]
    ensures forall i: nat :: i in TrendStartsUpTo(s, n) <==> i < n && IsTrend(s, i)
  {
    if n > 0 {
      TrendStartsUpToSpec(s, n - 1);
    }
  }

  /** The trend starts of s list, in order, every i with s[i], s[i+1], s[i+2] a trend. */
  lemma TrendStartsSpec(s: seq<Record>)
    ensures forall a, b :: 0 <= a < b < |TrendStarts(s)| ==> TrendStarts(s)[a] < TrendStarts(s)[b]
    ensures forall i: nat :: i in TrendStarts(s) <==> i + 2 < |s| && IsTrend(s, i)
  {
    TrendStartsUpToSpec(s, TripleCount(s));
  }

  lemma {:induction false} TrendsUpToIndexwise(pid: string, s: seq<Record>, n: nat)
    requires n <= TripleCount(s)
    ensures |TrendsUpTo(pid, s, n)| == |TrendStartsUpTo(s, n)|
    ensures forall k :: 0 <= k < |TrendStartsUpTo(s, n)| ==>
      TrendsUpTo(pid, s, n)[k] == Alert(pid, TREND_ALERT, s[TrendStartsUpTo(s, n)[k] + 2].timestamp)
  {
    if n > 0 {
      TrendsUpToIndexwise(pid, s, n - 1);
    }
  }

  /**
   * checkTrend emits one alert per trend triple, in the order of the
   * triples, each at its triple's third reading: the k-th alert belongs to
   * the k-th trend start.
   */
  lemma TrendAlertsIndexwise(pid: string, s: seq<Record>)
    ensures |TrendAlerts(pid, s)| == |TrendStarts(s)|
    ensures forall k :: 0 <= k < |TrendStarts(s)| ==>
      TrendAlerts(pid, s)[k] == Alert(pid, TREND_ALERT, s[TrendStarts(s)[k] + 2].timestamp)
  {
    TrendsUpToIndexwise(pid, s, TripleCount(s));
  }

  /** A step of exactly 10 never makes a trend: the comparison is strict. */
  lemma StepOfTenIsNoTrend(v1: real, v2: real, v3: real)
    requires v2 - v1 == 10.0 || v3 - v2 == 10.0 || v1 - v2 == 10.0 || v2 - v3 == 10.0
    ensures !Rising(v1, v2, v3) && !Falling(v1, v2, v3)
  {
  }

  /** The critical-value loop raises nothing exactly when no reading is critical. */
  lemma {:induction false} NoCriticalNoAlerts(pid: string, rs: seq<Record>)
    ensures CriticalAlerts(pid, rs) == [] <==> forall k :: 0 <= k < |rs| ==> !IsCritical(rs[k])
  {
    if rs != [] {
      var init := rs[..|rs| - 1];
      NoCriticalNoAlerts(pid, init);
      assert forall k :: 0 <= k < |init| ==> init[k] == rs[k];
    }
  }

  /** Sorted readings of one type: the trend check sees them as they are, the other type sees none. */
  lemma SortedOneTypeTrends(pid: string, rs: seq<Record>)
    requires SortedByTime(rs)
    requires forall k :: 0 <= k < |rs| ==> rs[k].recordType == SYSTOLIC
    ensures TypeTrendAlerts(pid, rs, SYSTOLIC) == TrendAlerts(pid, rs)
    ensures TypeTrendAlerts(pid, rs, DIASTOLIC) == []
  {
    assert SYSTOLIC != DIASTOLIC by { assert SYSTOLIC[0] != DIASTOLIC[0]; }
    OfTypeAll(rs, SYSTOLIC);
    OfTypeNone(rs, DIASTOLIC);
    SortOfSorted(rs);
    assert SortByTime([]) == [];
    assert TrendAlerts(pid, []) == [];
  }

  lemma RisingTripleTrend(pid: string, rs: seq<Record>)
    requires |rs| == 3
    requires Rising(rs[0].value, rs[1].value, rs[2].value)
    ensures TrendAlerts(pid, rs) == [Alert(pid, TREND_ALERT, rs[2].timestamp)]
  {
    assert IsTrend(rs, 0);
    assert TrendsUpTo(pid, rs, 0) == [];
    assert TrendsUpTo(pid, rs, 1) == [Alert(pid, TREND_ALERT, rs[2].timestamp)];
  }

  /** Three sorted systolic readings in range that rise by more than 10 twice raise one trend alert only. */
  lemma RisingTriple(pid: string, rs: seq<Record>)
    requires |rs| == 3 && SortedByTime(rs)
    requires forall k :: 0 <= k < 3 ==> rs[k].recordType == SYSTOLIC && !IsCritical(rs[k])
    requires Rising(rs[0].value, rs[1].value, rs[2].value)
    ensures BloodPressureAlerts(pid, rs) == [Alert(pid, TREND_ALERT, rs[2].timestamp)]
  {
    NoCriticalNoAlerts(pid, rs);
    SortedOneTypeTrends(pid, rs);
    RisingTripleTrend(pid, rs);
  }

  /**
   * No time gap between readings is required: 120, 131, 142 one second apart
   * raise exactly one trend alert, at the third reading, and nothing else.
   */
  lemma TrendWithoutGap(pid: string, id: int, t: int)
    ensures BloodPressureAlerts(pid, [Record(id, 120.0, SYSTOLIC, t), Record(id, 131.0, SYSTOLIC, t + 1000),
                                      Record(id, 142.0, SYSTOLIC, t + 2000)])
            == [Alert(pid, TREND_ALERT, t + 2000)]
  {
    RisingTriple(pid, [Record(id, 120.0, SYSTOLIC, t), Record(id, 131.0, SYSTOLIC, t + 1000),
                       Record(id, 142.0, SYSTOLIC, t + 2000)]);
  }

  /** checkTrend: the index loop over consecutive triples of one type. */
  method CheckTrend(patientId: int, records: seq<Record>, recordType: string) returns (alerts: seq<Alert>)
    ensures alerts == TypeTrendAlerts(IdString(patientId), records, recordType)
  {
    var pid := IdString(patientId);
    var bpRecords := SortByTime(OfType(records, recordType));
    alerts := [];
    var i := 0;
    while i < |bpRecords| - 2
      invariant 0 <= i <= TripleCount(bpRecords)
      invariant alerts == TrendsUpTo(pid, bpRecords, i)
    {
      var v1 := bpRecords[i].value;
      var v2 := bpRecords[i + 1].value;
      var v3 := bpRecords[i + 2].value;
      if v2 - v1 > BP_TREND_THRESHOLD && v3 - v2 > BP_TREND_THRESHOLD {
        alerts := alerts + [Alert(pid, TREND_ALERT, bpRecords[i + 2].timestamp)];
      } else if v1 - v2 > BP_TREND_THRESHOLD && v2 - v3 > BP_TREND_THRESHOLD {
        alerts := alerts + [Alert(pid, TREND_ALERT, bpRecords[i + 2].timestamp)];
      }
      i := i + 1;
    }
    assert i == TripleCount(bpRecords);
  }

  /** checkAlert: the critical-value loop, then the two trend checks. */
  method CheckAlert(patientId: int, records: seq<Record>) returns (alerts: seq<Alert>)
    ensures alerts == BloodPressureAlerts(IdString(patientId), records)
  {
    var pid := IdString(patientId);
    alerts := [];
    for i := 0 to |records|
      invariant alerts == CriticalAlerts(pid, records[..i])
    {
      var record := records[i];
      var value := record.value;
      if record.recordType == SYSTOLIC {
        if value > SYSTOLIC_UPPER || value < SYSTOLIC_LOWER {
          alerts := alerts + [Alert(pid, CRITICAL_SYSTOLIC, record.timestamp)];
        }
      } else if record.recordType == DIASTOLIC {
        if value > DIASTOLIC_UPPER || value < DIASTOLIC_LOWER {
          alerts := alerts + [Alert(pid, CRITICAL_DIASTOLIC, record.timestamp)];
        }
      }
      assert records[..i + 1][..i] == records[..i];
    }
    assert records[..|records|] == records;
    var systolicTrends := CheckTrend(patientId, records, SYSTOLIC);
    var diastolicTrends := CheckTrend(patientId, records, DIASTOLIC);
    alerts := alerts + systolicTrends + diastolicTrends;
  }
}
