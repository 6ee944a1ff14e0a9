/**
 * The readings the alert rules inspect, the alerts they raise, and the two
 * list operations every rule builds on: keeping the records of one type
 * (a stream filter, which keeps list order) and Java's stable sort by
 * timestamp. A patient's record store is modelled only through its
 * inclusive range query.
 */
module Records {
  import Decimal

  /** PatientRecord: one reading; measurement values are modelled as reals. */
  datatype Record = Record(patientId: int, value: real, recordType: string, timestamp: int)

  /** Alert: what every alert factory call constructs, and in the model also emits. */
  datatype Alert = Alert(patientId: string, condition: string, timestamp: int)

  const SYSTOLIC: string := "SystolicPressure"
  const DIASTOLIC: string := "DiastolicPressure"
  const SATURATION: string := "Saturation"
  const ECG: string := "ECG"
  const MANUAL: string := "Alert"

  /** Milliseconds in 24 hours, as written `24*60*60*1000`. */
  const DAY_MS: int := 24 * 60 * 60 * 1000

  /** String.valueOf(patient.getPatientId()): the alert's patient id. */
  function IdString(patientId: int): string
  {
    Decimal.IntToString(patientId)
  }

  /** `records.stream().filter(r -> r.getRecordType().equals(t))`. */
  function OfType(rs: seq<Record>, t: string): (r: seq<Record>)
    ensures |r| <= |rs|
    ensures forall x :: x in r <==> x in rs && x.recordType == t
    ensures forall i :: 0 <= i < |r| ==> r[i].recordType == t
  {
    if rs == [] then []
    else (if rs[0].recordType == t then [rs[0]] else []) + OfType(rs[1..], t)
  }

  /** Filtering distributes over concatenation: list order is kept. */
  lemma {:induction false} OfTypeAppend(a: seq<Record>, b: seq<Record>, t: string)
    ensures OfType(a + b, t) == OfType(a, t) + OfType(b, t)
  {
    if a == [] {
      assert a + b == b;
    } else {
      assert (a + b)[1..] == a[1..] + b;
      OfTypeAppend(a[1..], b, t);
    }
  }

  /** Records all of type t pass the filter unchanged. */
  lemma {:induction false} OfTypeAll(rs: seq<Record>, t: string)
    requires forall k :: 0 <= k < |rs| ==> rs[k].recordType == t
    ensures OfType(rs, t) == rs
  {
    if rs != [] {
      OfTypeAll(rs[1..], t);
      assert rs == [rs[0]] + rs[1..];
    }
  }

  /** Records none of which has type t leave nothing. */
  lemma {:induction false} OfTypeNone(rs: seq<Record>, t: string)
    requires forall k :: 0 <= k < |rs| ==> rs[k].recordType != t
    ensures OfType(rs, t) == []
  {
    if rs != [] {
      OfTypeNone(rs[1..], t);
    }
  }

  /** Filtering twice by the same type filters once. */
  lemma {:induction false} OfTypeIdempotent(rs: seq<Record>, t: string)
    ensures OfType(OfType(rs, t), t) == OfType(rs, t)
  {
    if rs != [] {
      OfTypeIdempotent(rs[1..], t);
      var head := if rs[0].recordType == t then [rs[0]] else [];
      OfTypeAppend(head, OfType(rs[1..], t), t);
      assert OfType(head, t) == head by {
        if head != [] { assert head[1..] == []; }
      }
    }
  }

  predicate SortedByTime(s: seq<Record>)
  {
    forall i, j :: 0 <= i < j < |s| ==> s[i].timestamp <= s[j].timestamp
  }

  /** Puts x before the first element whose timestamp is not smaller than its own. */
  function Insert(x: Record, s: seq<Record>): (r: seq<Record>)
    ensures multiset(r) == multiset(s) + multiset{x}
  {
    if s == [] || x.timestamp <= s[0].timestamp then [x] + s
    else
      assert s == [s[0]] + s[1..];
      [s[0]] + Insert(x, s[1..])
  }

  lemma {:induction false} InsertSorted(x: Record, s: seq<Record>)
    requires SortedByTime(s)
    ensures SortedByTime(Insert(x, s))
  {
    if s != [] && x.timestamp > s[0].timestamp {
      InsertSorted(x, s[1..]);
      var rest := Insert(x, s[1..]);
      assert s == [s[0]] + s[1..];
      forall y | y in rest
        ensures s[0].timestamp <= y.timestamp
      {
        assert y in multiset(rest);
        if y != x {
          assert y in multiset(s[1..]);
          var k :| 0 <= k < |s[1..]| && s[1..][k] == y;
          assert s[k + 1] == y;
        }
      }
      assert Insert(x, s) == [s[0]] + rest;
    }
  }

  /**
   * `.sorted(Comparator.comparingLong(PatientRecord::getTimestamp))`: Java's
   * sort of a stream is stable, and so is this insertion sort (SortStable).
   */
  function SortByTime(s: seq<Record>): (r: seq<Record>)
    ensures |r| == |s|
    ensures multiset(r) == multiset(s)
  {
    if s == [] then []
    else
      assert s == [s[0]] + s[1..];
      var r := Insert(s[0], SortByTime(s[1..]));
      assert |r| == |multiset(r)|;
      r
  }

  /** The sort's output is in ascending timestamp order. */
  lemma {:induction false} SortByTimeSorted(s: seq<Record>)
    ensures SortedByTime(SortByTime(s))
  {
    if s != [] {
      SortByTimeSorted(s[1..]);
      InsertSorted(s[0], SortByTime(s[1..]));
    }
  }

  /** The records of s with timestamp t, in list order. */
  function AtTime(s: seq<Record>, t: int): seq<Record>
  {
    if s == [] then [] else (if s[0].timestamp == t then [s[0]] else []) + AtTime(s[1..], t)
  }

  lemma {:induction false} InsertAtTime(x: Record, s: seq<Record>, t: int)
    ensures AtTime(Insert(x, s), t) == if x.timestamp == t then [x] + AtTime(s, t) else AtTime(s, t)
  {
    if s == [] || x.timestamp <= s[0].timestamp {
      assert ([x] + s)[1..] == s;
    } else {
      InsertAtTime(x, s[1..], t);
      assert ([s[0]] + Insert(x, s[1..]))[1..] == Insert(x, s[1..]);
    }
  }

  /** Stability: records sharing a timestamp keep their list order. */
  lemma {:induction false} SortStable(s: seq<Record>, t: int)
    ensures AtTime(SortByTime(s), t) == AtTime(s, t)
  {
    if s != [] {
      SortStable(s[1..], t);
      InsertAtTime(s[0], SortByTime(s[1..]), t);
    }
  }

  /** A list already in timestamp order is left as it is. */
  lemma {:induction false} SortOfSorted(s: seq<Record>)
    requires SortedByTime(s)
    ensures SortByTime(s) == s
  {
    if s != [] {
      SortOfSorted(s[1..]);
      assert SortByTime(s[1..]) == s[1..];
    }
  }

  /** Patient: the model of a patient is its id and its record list, in insertion order. */
  datatype Patient = Patient(patientId: int, records: seq<Record>)

  predicate InRange(r: Record, start: int, end: int) { start <= r.timestamp <= end }

  /**
   * Patient.getRecords(start, end): the records whose timestamp lies in
   * [start, end], both ends included, in list order (not sorted).
   */
  function GetRecords(p: Patient, start: int, end: int): (w: seq<Record>)
    ensures forall x :: x in w <==> x in p.records && InRange(x, start, end)
  {
    Window(p.records, start, end)
  }

  function Window(rs: seq<Record>, start: int, end: int): (w: seq<Record>)
    ensures forall x :: x in w <==> x in rs && InRange(x, start, end)
    ensures |w| <= |rs|
  {
    if rs == [] then []
    else (if InRange(rs[0], start, end) then [rs[0]] else []) + Window(rs[1..], start, end)
  }

  lemma {:induction false} WindowAppend(a: seq<Record>, b: seq<Record>, start: int, end: int)
    ensures Window(a + b, start, end) == Window(a, start, end) + Window(b, start, end)
  {
    if a == [] {
      assert a + b == b;
    } else {
      assert (a + b)[1..] == a[1..] + b;
      WindowAppend(a[1..], b, start, end);
    }
  }

  /** Querying a window again over the same range changes nothing. */
  lemma {:induction false} WindowIdempotent(rs: seq<Record>, start: int, end: int)
    ensures Window(Window(rs, start, end), start, end) == Window(rs, start, end)
  {
    if rs != [] {
      WindowIdempotent(rs[1..], start, end);
      var head := if InRange(rs[0], start, end) then [rs[0]] else [];
      WindowAppend(head, Window(rs[1..], start, end), start, end);
    }
  }
}
