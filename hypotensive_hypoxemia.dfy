/**
 * HypotensiveHypoxemiaStrategy: one pass in list order remembers the last
 * systolic and the last saturation reading; if both exist and both are
 * low, one alert at the later of their two timestamps.
 */
module HypotensiveHypoxemiaStrategy {
  import opened Wrappers
  import opened Records

  const SYSTOLIC_LOWER: real := 90.0
  const SATURATION_THRESHOLD: real := 92.0
  const HYPOTENSIVE_HYPOXEMIA: string := "Hypotensive Hypoxemia Alert"

  /** The last record of type t in list order: what the loop's overwriting leaves. */
  function LastOfType(rs: seq<Record>, t: string): (r: Option<Record>)
    ensures r.Some? ==> r.value in rs && r.value.recordType == t
  {
    if rs == [] then None
    else if rs[|rs| - 1].recordType == t then Some(rs[|rs| - 1])
    else LastOfType(rs[..|rs| - 1], t)
  }

  /**
   * LastOfType is the record at some position k of type t with no record of
   * type t after it, and None means no record has type t.
   */
  lemma {:induction false} LastOfTypeSpec(rs: seq<Record>, t: string)
    ensures LastOfType(rs, t).None? <==> forall k :: 0 <= k < |rs| ==> rs[k].recordType != t
    ensures LastOfType(rs, t).Some? ==>
      exists k :: 0 <= k < |rs| && rs[k] == LastOfType(rs, t).value && IsLastOfType(rs, t, k)
  {
    if rs != [] && rs[|rs| - 1].recordType != t {
      var init := rs[..|rs| - 1];
      LastOfTypeSpec(init, t);
      if LastOfType(init, t).Some? {
        var k :| 0 <= k < |init| && init[k] == LastOfType(init, t).value && IsLastOfType(init, t, k);
        assert rs[k] == init[k];
        assert IsLastOfType(rs, t, k);
      } else {
        forall k | 0 <= k < |rs| ensures rs[k].recordType != t {
          if k < |init| { assert rs[k] == init[k]; }
        }
      }
    } else if rs != [] {
      assert IsLastOfType(rs, t, |rs| - 1);
    }
  }

  /** rs[k] has type t and no later record does. */
  predicate IsLastOfType(rs: seq<Record>, t: string, k: int)
    requires 0 <= k < |rs|
  {
    rs[k].recordType == t && forall j :: k < j < |rs| ==> rs[j].recordType != t
  }

  /** The one position that is the last of its type. */
  lemma LastOfTypeUnique(rs: seq<Record>, t: string, k: int, m: int)
    requires 0 <= k < |rs| && 0 <= m < |rs|
    requires IsLastOfType(rs, t, k) && IsLastOfType(rs, t, m)
    ensures k == m
  {
  }

  function Max(a: int, b: int): int { if a >= b then a else b }

  /** checkAlert, on the two readings the loop leaves behind. */
  function HypotensiveHypoxemiaAlerts(pid: string, rs: seq<Record>): seq<Alert>
  {
    match (LastOfType(rs, SYSTOLIC), LastOfType(rs, SATURATION))
    case (Some(sys), Some(sat)) =>
      if sys.value < SYSTOLIC_LOWER && sat.value < SATURATION_THRESHOLD
      then [Alert(pid, HYPOTENSIVE_HYPOXEMIA, Max(sys.timestamp, sat.timestamp))]
      else []
    case _ => []
  }

  /**
   * The alert fires exactly when the last systolic reading in list order is
   * below 90 and the last saturation reading below 92; it is the only alert,
   * timestamped at the later of the two readings.
   */
  lemma FiresIff(pid: string, rs: seq<Record>)
    ensures |HypotensiveHypoxemiaAlerts(pid, rs)| <= 1
    ensures HypotensiveHypoxemiaAlerts(pid, rs) != [] <==>
      exists i, j :: 0 <= i < |rs| && 0 <= j < |rs| && IsLastOfType(rs, SYSTOLIC, i) && IsLastOfType(rs, SATURATION, j)
                     && rs[i].value < SYSTOLIC_LOWER && rs[j].value < SATURATION_THRESHOLD
    ensures forall i, j :: 0 <= i < |rs| && 0 <= j < |rs| && IsLastOfType(rs, SYSTOLIC, i) && IsLastOfType(rs, SATURATION, j)
                     && rs[i].value < SYSTOLIC_LOWER && rs[j].value < SATURATION_THRESHOLD
                     ==> HypotensiveHypoxemiaAlerts(pid, rs) == [Alert(pid, HYPOTENSIVE_HYPOXEMIA, Max(rs[i].timestamp, rs[j].timestamp))]
  {
    LastOfTypeSpec(rs, SYSTOLIC);
    LastOfTypeSpec(rs, SATURATION);
    forall i, j | 0 <= i < |rs| && 0 <= j < |rs| && IsLastOfType(rs, SYSTOLIC, i) && IsLastOfType(rs, SATURATION, j)
      ensures LastOfType(rs, SYSTOLIC) == Some(rs[i]) && LastOfType(rs, SATURATION) == Some(rs[j])
    {
      var k :| 0 <= k < |rs| && rs[k] == LastOfType(rs, SYSTOLIC).value && IsLastOfType(rs, SYSTOLIC, k);
      LastOfTypeUnique(rs, SYSTOLIC, i, k);
      var m :| 0 <= m < |rs| && rs[m] == LastOfType(rs, SATURATION).value && IsLastOfType(rs, SATURATION, m);
      LastOfTypeUnique(rs, SATURATION, j, m);
    }
  }

  /** A patient with no saturation reading, however low the pressure, raises nothing. */
  lemma NeedsBothSignals(pid: string, rs: seq<Record>)
    requires forall k :: 0 <= k < |rs| ==> rs[k].recordType != SATURATION
    ensures HypotensiveHypoxemiaAlerts(pid, rs) == []
  {
    LastOfTypeSpec(rs, SATURATION);
  }

  /** The list order decides, not the timestamps: a later entry overwrites an earlier one. */
  lemma LaterEntryOverwrites(rs: seq<Record>, r: Record)
    ensures LastOfType(rs + [r], r.recordType) == Some(r)
  {
  }

  /**
   * Pressure 85 then saturation 90 fires at the later timestamp; appending
   * a systolic 95 with an older timestamp cancels it.
   */
  lemma OverwriteExample(pid: string, id: int)
    ensures HypotensiveHypoxemiaAlerts(pid, [Record(id, 85.0, SYSTOLIC, 1000), Record(id, 90.0, SATURATION, 2000)])
            == [Alert(pid, HYPOTENSIVE_HYPOXEMIA, 2000)]
    ensures HypotensiveHypoxemiaAlerts(pid, [Record(id, 85.0, SYSTOLIC, 1000), Record(id, 90.0, SATURATION, 2000),
                                             Record(id, 95.0, SYSTOLIC, 0)]) == []
  {
    var a := [Record(id, 85.0, SYSTOLIC, 1000), Record(id, 90.0, SATURATION, 2000)];
    var b := a + [Record(id, 95.0, SYSTOLIC, 0)];
    assert SYSTOLIC != SATURATION by { assert SYSTOLIC[1] != SATURATION[1]; }
    assert a[..1] == [a[0]];
    assert b[..2] == a;
    assert LastOfType(a, SYSTOLIC) == Some(a[0]);
    assert LastOfType(a, SATURATION) == Some(a[1]);
    LaterEntryOverwrites(a, Record(id, 95.0, SYSTOLIC, 0));
  }

  /** The limits are strict: a last systolic of 90 or a last saturation of 92 raises nothing. */
  lemma BoundariesDoNotFire(pid: string, rs: seq<Record>)
    requires LastOfType(rs, SYSTOLIC).Some? && LastOfType(rs, SATURATION).Some?
    requires LastOfType(rs, SYSTOLIC).value.value == 90.0 || LastOfType(rs, SATURATION).value.value == 92.0
    ensures HypotensiveHypoxemiaAlerts(pid, rs) == []
  {
  }

  /** `Double.NaN` as "not seen yet": the value the loop keeps for a type, if any. */
  function ValueOf(o: Option<Record>): Option<real>
  {
    match o
    case None => None
    case Some(r) => Some(r.value)
  }

  /** The timestamp the loop keeps for a type; 0 until one is seen. */
  function TimeOf(o: Option<Record>): int
  {
    match o
    case None => 0
    case Some(r) => r.timestamp
  }

  /** checkAlert. */
  method CheckAlert(patientId: int, records: seq<Record>) returns (alerts: seq<Alert>)
    ensures alerts == HypotensiveHypoxemiaAlerts(IdString(patientId), records)
  {
    var lastSystolic: Option<real> := None;
    var lastSaturation: Option<real> := None;
    var lastSystolicTime := 0;
    var lastSaturationTime := 0;
    for i := 0 to |records|
      invariant lastSystolic == ValueOf(LastOfType(records[..i], SYSTOLIC))
      invariant lastSystolicTime == TimeOf(LastOfType(records[..i], SYSTOLIC))
      invariant lastSaturation == ValueOf(LastOfType(records[..i], SATURATION))
      invariant lastSaturationTime == TimeOf(LastOfType(records[..i], SATURATION))
    {
      var record := records[i];
      assert records[..i + 1][..i] == records[..i];
      if record.recordType == SYSTOLIC {
        lastSystolic := Some(record.value);
        lastSystolicTime := record.timestamp;
      } else if record.recordType == SATURATION {
        lastSaturation := Some(record.value);
        lastSaturationTime := record.timestamp;
      }
    }
    assert records[..|records|] == records;
    alerts := [];
    if lastSystolic.Some? && lastSaturation.Some?
       && lastSystolic.value < SYSTOLIC_LOWER && lastSaturation.value < SATURATION_THRESHOLD {
      alerts := [Alert(IdString(patientId), HYPOTENSIVE_HYPOXEMIA, Max(lastSystolicTime, lastSaturationTime))];
    }
  }
}
