/**
 * OxygenSaturationStrategy: one pass over the saturation readings in
 * timestamp order that reports the first low reading once and stops at the
 * first rapid drop between neighbouring readings.
 */
module OxygenSaturationStrategy {
  import opened Wrappers
  import opened Records

  const SATURATION_THRESHOLD: real := 92.0
  const SATURATION_DROP: real := 5.0
  const RAPID_DROP_WINDOW_MS: int := 10 * 60 * 1000

  const LOW_SATURATION: string := "Low Blood Saturation Alert"
  const RAPID_DROP: string := "Rapid Blood Saturation Drop Alert"

  predicate IsLow(r: Record) { r.value < SATURATION_THRESHOLD }

  /** Reading k follows reading k-1 by at most ten minutes and is at least 5 lower. */
  predicate IsRapidDrop(s: seq<Record>, k: int)
    requires 1 <= k < |s|
  {
    s[k].timestamp - s[k - 1].timestamp <= RAPID_DROP_WINDOW_MS && s[k - 1].value - s[k].value >= SATURATION_DROP
  }

  /** The index of the first low reading of s. */
  function FirstLow(s: seq<Record>): (r: Option<nat>)
    ensures r.Some? ==> r.value < |s|
  {
    if s == [] then None
    else if IsLow(s[0]) then Some(0)
    else match FirstLow(s[1..])
      case None => None
      case Some(k) => Some(k + 1)
  }

  /** FirstLow finds the first low reading, and None means there is none. */
  lemma {:induction false} FirstLowSpec(s: seq<Record>)
    ensures FirstLow(s).Some? ==>
              && FirstLow(s).value < |s| && IsLow(s[FirstLow(s).value])
              && forall j :: 0 <= j < FirstLow(s).value ==> !IsLow(s[j])
    ensures FirstLow(s).None? <==> forall j :: 0 <= j < |s| ==> !IsLow(s[j])
  {
    if s != [] && !IsLow(s[0]) {
      FirstLowSpec(s[1..]);
    }
  }

  function FirstDropFrom(s: seq<Record>, k: nat): (r: Option<nat>)
    requires 1 <= k
    ensures r.Some? ==> k <= r.value < |s|
    decreases |s| - k
  {
    if k >= |s| then None
    else if IsRapidDrop(s, k) then Some(k)
    else FirstDropFrom(s, k + 1)
  }

  /** The index of the later reading of the first rapid-drop pair of s. */
  function FirstDrop(s: seq<Record>): (r: Option<nat>)
    ensures r.Some? ==> 1 <= r.value < |s|
  {
    FirstDropFrom(s, 1)
  }

  lemma {:induction false} FirstDropFromSpec(s: seq<Record>, k: nat)
    requires 1 <= k
    ensures FirstDropFrom(s, k).Some? ==>
              && k <= FirstDropFrom(s, k).value < |s| && IsRapidDrop(s, FirstDropFrom(s, k).value)
              && forall j :: k <= j < FirstDropFrom(s, k).value ==> !IsRapidDrop(s, j)
    ensures FirstDropFrom(s, k).None? <==> forall j :: k <= j < |s| ==> !IsRapidDrop(s, j)
    decreases |s| - k
  {
    if k < |s| && !IsRapidDrop(s, k) {
      FirstDropFromSpec(s, k + 1);
    }
  }

  /** FirstDrop finds the first rapid-drop pair, and None means there is none. */
  lemma FirstDropSpec(s: seq<Record>)
    ensures FirstDrop(s).Some? ==>
              && 1 <= FirstDrop(s).value < |s| && IsRapidDrop(s, FirstDrop(s).value)
              && forall j :: 1 <= j < FirstDrop(s).value ==> !IsRapidDrop(s, j)
    ensures FirstDrop(s).None? <==> forall j :: 1 <= j < |s| ==> !IsRapidDrop(s, j)
  {
    FirstDropFromSpec(s, 1);
  }

  /** The readings the loop visits: all of them, or up to the first rapid drop. */
  function Scanned(s: seq<Record>): seq<Record>
  {
    match FirstDrop(s)
    case None => s
    case Some(k) => s[..k + 1]
  }

  function LowAlerts(pid: string, s: seq<Record>): seq<Alert>
  {
    match FirstLow(s)
    case None => []
    case Some(j) => [Alert(pid, LOW_SATURATION, s[j].timestamp)]
  }

  function DropAlerts(pid: string, s: seq<Record>): seq<Alert>
  {
    match FirstDrop(s)
    case None => []
    case Some(k) => [Alert(pid, RAPID_DROP, s[k].timestamp)]
  }

  /** What the loop emits over readings already filtered and sorted. */
  function SortedSaturationAlerts(pid: string, s: seq<Record>): seq<Alert>
  {
    LowAlerts(pid, Scanned(s)) + DropAlerts(pid, s)
  }

  /** checkAlert. */
  function SaturationAlerts(pid: string, rs: seq<Record>): seq<Alert>
  {
    SortedSaturationAlerts(pid, SortByTime(OfType(rs, SATURATION)))
  }

  /** The flag-guarded low check of the loop, run over p. */
  function LowScan(pid: string, p: seq<Record>): seq<Alert>
  {
    if p == [] then []
    else
      var before := LowScan(pid, p[..|p| - 1]);
      if before == [] && IsLow(p[|p| - 1]) then [Alert(pid, LOW_SATURATION, p[|p| - 1].timestamp)] else before
  }

  /** The flag makes the loop report exactly the first low reading. */
  lemma {:induction false} LowScanIsFirstLow(pid: string, p: seq<Record>)
    ensures LowScan(pid, p) == LowAlerts(pid, p)
  {
    if p != [] {
      var q := p[..|p| - 1];
      LowScanIsFirstLow(pid, q);
      assert p == q + [p[|p| - 1]];
      FirstLowSnoc(q, p[|p| - 1]);
    }
  }

  lemma FirstLowSnoc(p: seq<Record>, x: Record)
    ensures FirstLow(p + [x]) == if FirstLow(p).Some? then FirstLow(p) else if IsLow(x) then Some(|p|) else None
  {
    var q := p + [x];
    assert forall j :: 0 <= j < |p| ==> q[j] == p[j];
    assert q[|p|] == x;
    FirstLowSpec(p);
    FirstLowSpec(q);
  }

  /**
   * At most two alerts; a low-saturation alert, if any, is at the first low
   * reading visited, comes first, and a drop alert is at the later reading of
   * the first rapid-drop pair.
   */
  lemma SaturationAlertsShape(pid: string, s: seq<Record>)
    ensures |SortedSaturationAlerts(pid, s)| <= 2
    ensures forall a :: a in SortedSaturationAlerts(pid, s) && a.condition == LOW_SATURATION ==>
      exists j :: 0 <= j < |Scanned(s)| && IsLow(s[j]) && a.timestamp == s[j].timestamp
    ensures forall a :: a in SortedSaturationAlerts(pid, s) && a.condition == RAPID_DROP ==>
      exists k :: 1 <= k < |s| && IsRapidDrop(s, k) && a.timestamp == s[k].timestamp
    ensures |SortedSaturationAlerts(pid, s)| == 2 ==>
      SortedSaturationAlerts(pid, s)[0].condition == LOW_SATURATION && SortedSaturationAlerts(pid, s)[1].condition == RAPID_DROP
  {
    assert LOW_SATURATION != RAPID_DROP by { assert LOW_SATURATION[0] != RAPID_DROP[0]; }
    FirstDropSpec(s);
    var sc := Scanned(s);
    FirstLowSpec(sc);
    assert |sc| <= |s| && forall j :: 0 <= j < |sc| ==> sc[j] == s[j];
  }

  /** A low reading after the first rapid drop is never reported. */
  lemma NoLowAfterDrop(pid: string, s: seq<Record>, k: nat)
    requires FirstDrop(s) == Some(k)
    requires forall j :: 0 <= j <= k ==> !IsLow(s[j])
    ensures SortedSaturationAlerts(pid, s) == [Alert(pid, RAPID_DROP, s[k].timestamp)]
  {
    FirstDropSpec(s);
    FirstLowSpec(Scanned(s));
    assert FirstLow(Scanned(s)) == None;
  }

  /** Both limits are inclusive: 100 then 93 exactly ten minutes later is a rapid drop. */
  lemma DropBoundariesInclusive(pid: string, id: int, t: int)
    ensures SortedSaturationAlerts(pid, [Record(id, 100.0, SATURATION, t), Record(id, 93.0, SATURATION, t + 600000)])
            == [Alert(pid, RAPID_DROP, t + 600000)]
  {
    var s := [Record(id, 100.0, SATURATION, t), Record(id, 93.0, SATURATION, t + 600000)];
    assert IsRapidDrop(s, 1);
    assert FirstDrop(s) == Some(1);
    FirstDropSpec(s);
    NoLowAfterDrop(pid, s, 1);
  }

  /** Only neighbours are compared: 100, 97, 94 a second apart drop 6 overall but raise nothing. */
  lemma OnlyAdjacentPairs(pid: string, id: int, t: int)
    ensures SortedSaturationAlerts(pid, [Record(id, 100.0, SATURATION, t), Record(id, 97.0, SATURATION, t + 1000),
                                         Record(id, 94.0, SATURATION, t + 2000)]) == []
  {
    var s := [Record(id, 100.0, SATURATION, t), Record(id, 97.0, SATURATION, t + 1000), Record(id, 94.0, SATURATION, t + 2000)];
    assert !IsRapidDrop(s, 1) && !IsRapidDrop(s, 2);
    FirstDropSpec(s);
    assert FirstDrop(s) == None;
    assert !IsLow(s[0]) && !IsLow(s[1]) && !IsLow(s[2]);
    FirstLowSpec(s);
  }

  /** Readings of other types never matter. */
  lemma OnlySaturationCounts(pid: string, rs: seq<Record>)
    ensures SaturationAlerts(pid, rs) == SaturationAlerts(pid, OfType(rs, SATURATION))
  {
    OfTypeIdempotent(rs, SATURATION);
  }

  /** Where the loop breaks: the readings up to the drop decide the low alert. */
  lemma StopAtDrop(pid: string, s: seq<Record>, i: nat)
    requires FirstDrop(s) == Some(i)
    ensures SortedSaturationAlerts(pid, s) == LowAlerts(pid, s[..i + 1]) + [Alert(pid, RAPID_DROP, s[i].timestamp)]
  {
  }

  /** When the loop runs to the end, no rapid drop was found. */
  lemma NoDropAtAll(pid: string, s: seq<Record>)
    requires FirstDrop(s) == None
    ensures SortedSaturationAlerts(pid, s) == LowAlerts(pid, s)
  {
  }

  /** checkAlert: the single pass with the low-alert flag, the previous reading and the break. */
  method CheckAlert(patientId: int, records: seq<Record>) returns (alerts: seq<Alert>)
    ensures alerts == SaturationAlerts(IdString(patientId), records)
  {
    var pid := IdString(patientId);
    var lowSatAlertCreated := false;
    var prevRecord: Option<Record> := None;
    var satRecords := SortByTime(OfType(records, SATURATION));
    alerts := [];
    var i := 0;
    while i < |satRecords|
      invariant 0 <= i <= |satRecords|
      invariant i >= 1 ==> FirstDropFrom(satRecords, i) == FirstDrop(satRecords)
      invariant prevRecord == if i == 0 then None else Some(satRecords[i - 1])
      invariant alerts == LowScan(pid, satRecords[..i])
      invariant lowSatAlertCreated == (alerts != [])
    {
      var record := satRecords[i];
      assert satRecords[..i + 1][..i] == satRecords[..i];
      if !lowSatAlertCreated && record.value < SATURATION_THRESHOLD {
        alerts := alerts + [Alert(pid, LOW_SATURATION, record.timestamp)];
        lowSatAlertCreated := true;
      }
      assert alerts == LowScan(pid, satRecords[..i + 1]);
      if prevRecord.Some? && record.timestamp - prevRecord.value.timestamp <= RAPID_DROP_WINDOW_MS {
        var drop := prevRecord.value.value - record.value;
        if drop >= SATURATION_DROP {
          StopAtDrop(pid, satRecords, i);
          LowScanIsFirstLow(pid, satRecords[..i + 1]);
          alerts := alerts + [Alert(pid, RAPID_DROP, record.timestamp)];
          break;
        }
      }
      prevRecord := Some(record);
      i := i + 1;
    }
    if i == |satRecords| {
      assert satRecords[..i] == satRecords;
      NoDropAtAll(pid, satRecords);
      LowScanIsFirstLow(pid, satRecords);
    }
  }
}
