/**
 * ManualAlertStrategy: the first record typed "Alert" whose timestamp is at
 * most 24 hours before the current time raises one "Triggered Alert".
 */
module ManualAlertStrategy {
  import opened Wrappers
  import opened Records

  const TRIGGERED: string := "Triggered Alert"

  /** A manual alert record no older than 24 hours; future timestamps pass too. */
  predicate Qualifies(now: int, r: Record)
  {
    now - r.timestamp <= DAY_MS && r.recordType == MANUAL
  }

  /** The position of the first qualifying record. */
  function FirstQualifying(now: int, rs: seq<Record>): (r: Option<nat>)
    ensures r.Some? ==> r.value < |rs|
  {
    if rs == [] then None
    else if Qualifies(now, rs[0]) then Some(0)
    else match FirstQualifying(now, rs[1..])
      case None => None
      case Some(k) => Some(k + 1)
  }

  /** FirstQualifying is the first qualifying record, and None means there is none. */
  lemma {:induction false} FirstQualifyingSpec(now: int, rs: seq<Record>)
    ensures FirstQualifying(now, rs).Some? ==>
              && Qualifies(now, rs[FirstQualifying(now, rs).value])
              && forall j :: 0 <= j < FirstQualifying(now, rs).value ==> !Qualifies(now, rs[j])
    ensures FirstQualifying(now, rs).None? <==> forall j :: 0 <= j < |rs| ==> !Qualifies(now, rs[j])
  {
    if rs != [] && !Qualifies(now, rs[0]) {
      FirstQualifyingSpec(now, rs[1..]);
      forall j | 0 <= j < |rs| && j > 0 ensures rs[j] == rs[1..][j - 1] { }
    }
  }

  /** Appending a record only matters while nothing has qualified yet. */
  lemma {:induction false} FirstQualifyingSnoc(now: int, rs: seq<Record>, x: Record)
    ensures FirstQualifying(now, rs + [x]) ==
      if FirstQualifying(now, rs).Some? then FirstQualifying(now, rs)
      else if Qualifies(now, x) then Some(|rs|)
      else None
  {
    if rs != [] {
      assert (rs + [x])[1..] == rs[1..] + [x];
      FirstQualifyingSnoc(now, rs[1..], x);
    }
  }

  /** checkAlert: at most one alert, at the first qualifying record's timestamp. */
  function ManualAlerts(pid: string, now: int, rs: seq<Record>): seq<Alert>
  {
    match FirstQualifying(now, rs)
    case None => []
    case Some(k) => [Alert(pid, TRIGGERED, rs[k].timestamp)]
  }

  /**
   * One alert exactly when some record qualifies, at the timestamp of the
   * first one in list order; otherwise none.
   */
  lemma ManualAlertsSpec(pid: string, now: int, rs: seq<Record>)
    ensures |ManualAlerts(pid, now, rs)| <= 1
    ensures ManualAlerts(pid, now, rs) != [] <==> exists k :: 0 <= k < |rs| && Qualifies(now, rs[k])
    ensures forall k :: 0 <= k < |rs| && Qualifies(now, rs[k]) && (forall j :: 0 <= j < k ==> !Qualifies(now, rs[j]))
              ==> ManualAlerts(pid, now, rs) == [Alert(pid, TRIGGERED, rs[k].timestamp)]
  {
    FirstQualifyingSpec(now, rs);
  }

  /** Records that agree on type and timestamp give the same alerts: the value is never read. */
  lemma {:induction false} ValueNeverInspected(pid: string, now: int, rs: seq<Record>, qs: seq<Record>)
    requires |rs| == |qs|
    requires forall k :: 0 <= k < |rs| ==> rs[k].recordType == qs[k].recordType && rs[k].timestamp == qs[k].timestamp
    ensures ManualAlerts(pid, now, rs) == ManualAlerts(pid, now, qs)
  {
    SameFirstQualifying(now, rs, qs);
  }

  lemma {:induction false} SameFirstQualifying(now: int, rs: seq<Record>, qs: seq<Record>)
    requires |rs| == |qs|
    requires forall k :: 0 <= k < |rs| ==> rs[k].recordType == qs[k].recordType && rs[k].timestamp == qs[k].timestamp
    ensures FirstQualifying(now, rs) == FirstQualifying(now, qs)
  {
    if rs != [] {
      SameFirstQualifying(now, rs[1..], qs[1..]);
    }
  }

  /** A manual alert record stamped in the future qualifies. */
  lemma FutureTimestampQualifies(now: int, r: Record)
    requires r.recordType == MANUAL && r.timestamp >= now
    ensures Qualifies(now, r)
  {
  }

  /** Without a manual alert record younger than 24 hours, nothing is raised. */
  lemma OldOrOtherRecordsRaiseNothing(pid: string, now: int, rs: seq<Record>)
    requires forall k :: 0 <= k < |rs| ==> rs[k].recordType != MANUAL || now - rs[k].timestamp > DAY_MS
    ensures ManualAlerts(pid, now, rs) == []
  {
    FirstQualifyingSpec(now, rs);
  }

  /** checkAlert; `now` is the value of the clock read at its start. */
  method CheckAlert(patientId: int, records: seq<Record>, now: int) returns (alerts: seq<Alert>)
    ensures alerts == ManualAlerts(IdString(patientId), now, records)
  {
    var pid := IdString(patientId);
    var timeWindow := DAY_MS;
    var alertCreated := false;
    alerts := [];
    for i := 0 to |records|
      invariant alerts == ManualAlerts(pid, now, records[..i])
      invariant alertCreated == FirstQualifying(now, records[..i]).Some?
    {
      var record := records[i];
      FirstQualifyingSnoc(now, records[..i], record);
      assert records[..i + 1] == records[..i] + [record];
      if now - record.timestamp <= timeWindow && MANUAL == record.recordType && !alertCreated {
        alerts := alerts + [Alert(pid, TRIGGERED, record.timestamp)];
        alertCreated := true;
      }
    }
    assert records[..|records|] == records;
  }
}
