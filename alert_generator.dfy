/**
 * AlertGenerator.evaluateData: the records of the last 24 hours, in the
 * patient's list order, go through the five strategies in a fixed order;
 * an empty window raises nothing.
 */
module AlertGenerator {
  import opened Records
  import BloodPressureStrategy
  import OxygenSaturationStrategy
  import HeartRateStrategy
  import HypotensiveHypoxemiaStrategy
  import ManualAlertStrategy

  /** `patient.getRecords(currentTime - 24h, currentTime)`. */
  function DayWindow(p: Patient, now: int): seq<Record>
  {
    GetRecords(p, now - DAY_MS, now)
  }

  /**
   * What the five strategies raise on one window, in the order they run.
   * The manual strategy reads the clock itself: manualNow.
   */
  function StrategyAlerts(patientId: int, w: seq<Record>, manualNow: int): seq<Alert>
  {
    var pid := IdString(patientId);
    BloodPressureStrategy.BloodPressureAlerts(pid, w)
    + OxygenSaturationStrategy.SaturationAlerts(pid, w)
    + HeartRateStrategy.HeartRateAlerts(pid, w)
    + HypotensiveHypoxemiaStrategy.HypotensiveHypoxemiaAlerts(pid, w)
    + ManualAlertStrategy.ManualAlerts(pid, manualNow, w)
  }

  /**
   * evaluateData with `now` its own clock reading and `manualNow` the later
   * one taken inside the manual strategy.
   */
  function EvaluatedAlerts(p: Patient, now: int, manualNow: int): seq<Alert>
  {
    var w := DayWindow(p, now);
    if w == [] then [] else StrategyAlerts(p.patientId, w, manualNow)
  }

  /** The strategies run even on an empty window, and raise nothing there. */
  lemma EmptyWindowRaisesNothing(patientId: int, manualNow: int)
    ensures StrategyAlerts(patientId, [], manualNow) == []
  {
    var pid := IdString(patientId);
    assert OfType([], SYSTOLIC) == [] && OfType([], DIASTOLIC) == [];
    assert OfType([], SATURATION) == [] && OfType([], ECG) == [];
    assert SortByTime([]) == [];
    assert BloodPressureStrategy.TrendAlerts(pid, []) == [];
    assert OxygenSaturationStrategy.SortedSaturationAlerts(pid, []) == [];
    assert HeartRateStrategy.PeakAlerts(pid, []) == [];
  }

  lemma {:induction false} WindowNone(rs: seq<Record>, start: int, end: int)
    requires forall k :: 0 <= k < |rs| ==> !InRange(rs[k], start, end)
    ensures Window(rs, start, end) == []
  {
    if rs != [] {
      WindowNone(rs[1..], start, end);
    }
  }

  /** A patient whose records are all older than 24 hours (or in the future) raises nothing. */
  lemma StaleRecordsRaiseNothing(p: Patient, now: int, manualNow: int)
    requires forall k :: 0 <= k < |p.records| ==> !InRange(p.records[k], now - DAY_MS, now)
    ensures EvaluatedAlerts(p, now, manualNow) == []
  {
    WindowNone(p.records, now - DAY_MS, now);
  }

  /** Records outside the 24-hour window, wherever they sit in the list, change nothing. */
  lemma OutsideRecordsIgnored(id: int, a: seq<Record>, x: seq<Record>, b: seq<Record>, now: int, manualNow: int)
    requires forall k :: 0 <= k < |x| ==> !InRange(x[k], now - DAY_MS, now)
    ensures EvaluatedAlerts(Patient(id, a + x + b), now, manualNow) == EvaluatedAlerts(Patient(id, a + b), now, manualNow)
  {
    var start := now - DAY_MS;
    WindowAppend(a + x, b, start, now);
    WindowAppend(a, x, start, now);
    WindowAppend(a, b, start, now);
    WindowNone(x, start, now);
    assert Window(a + x, start, now) == Window(a, start, now);
  }

  /**
   * Inside the window, the manual strategy's own 24-hour test, taken at its
   * own clock reading, keeps the "Alert" records no older than manualNow - 24h;
   * while the second reading has not moved past the first, that test always
   * holds and only the record type decides.
   */
  lemma ManualWindowTest(p: Patient, now: int, manualNow: int)
    ensures forall k :: 0 <= k < |DayWindow(p, now)| ==>
      (ManualAlertStrategy.Qualifies(manualNow, DayWindow(p, now)[k])
       <==> DayWindow(p, now)[k].recordType == MANUAL && DayWindow(p, now)[k].timestamp >= manualNow - DAY_MS)
    ensures manualNow <= now ==> forall k :: 0 <= k < |DayWindow(p, now)| ==>
      (ManualAlertStrategy.Qualifies(manualNow, DayWindow(p, now)[k]) <==> DayWindow(p, now)[k].recordType == MANUAL)
  {
    var w := DayWindow(p, now);
    forall k | 0 <= k < |w|
      ensures InRange(w[k], now - DAY_MS, now)
    {
      assert w[k] in w;
    }
  }

  /**
   * Once the manual strategy's clock reading is later than evaluateData's,
   * an "Alert" record at the window's lower edge is passed to the strategy
   * but fails its 24-hour test: no manual alert, where one clock reading
   * would have raised one.
   */
  lemma ManualEdgeMissed(id: int, now: int, manualNow: int)
    requires manualNow > now
    ensures var r := Record(id, 0.0, MANUAL, now - DAY_MS);
      && DayWindow(Patient(id, [r]), now) == [r]
      && !ManualAlertStrategy.Qualifies(manualNow, r)
      && ManualAlertStrategy.ManualAlerts(IdString(id), manualNow, [r]) == []
      && ManualAlertStrategy.ManualAlerts(IdString(id), now, [r]) != []
  {
    var r := Record(id, 0.0, MANUAL, now - DAY_MS);
    assert [r][1..] == [];
    ManualAlertStrategy.ManualAlertsSpec(IdString(id), manualNow, [r]);
    ManualAlertStrategy.ManualAlertsSpec(IdString(id), now, [r]);
  }

  /** evaluateData. `now` is its clock reading; `manualNow` is the manual strategy's. */
  method EvaluateData(patient: Patient, now: int, manualNow: int) returns (alerts: seq<Alert>)
    ensures alerts == EvaluatedAlerts(patient, now, manualNow)
  {
    var currentTime := now;
    var dayAgo := currentTime - (24 * 60 * 60 * 1000);
    var records := GetRecords(patient, dayAgo, currentTime);
    if records == [] {
      return [];
    }
    var bp := BloodPressureStrategy.CheckAlert(patient.patientId, records);
    var sat := OxygenSaturationStrategy.CheckAlert(patient.patientId, records);
    var hr := HeartRateStrategy.CheckAlert(patient.patientId, records);
    var hh := HypotensiveHypoxemiaStrategy.CheckAlert(patient.patientId, records);
    var manual := ManualAlertStrategy.CheckAlert(patient.patientId, records, manualNow);
    alerts := bp + sat + hr + hh + manual;
  }
}
