/**
 * WebSocketClient.processMessage and onMessage: a message
 * "patientId,timestamp,label,data" is split on commas the way Java's
 * String.split does, its fields are trimmed and parsed, and a valid message
 * becomes exactly one addPatientData call. Double.parseDouble is a parameter.
 */
module WebSocketClient {
  import opened Wrappers
  import opened Decimal
  import opened DataStorage

  const SEPARATOR: char := ','
  const INVALID_MESSAGE: string := "Invalid message"
  const INVALID_NUMBER: string := "Invalid number format in message: "

  /** All comma-separated pieces of s, empty ones included: one more than there are commas. */
  function SplitAll(s: string): (parts: seq<string>)
    ensures |parts| >= 1
  {
    if s == [] then [[]]
    else if s[0] == SEPARATOR then [[]] + SplitAll(s[1..])
    else
      var rest := SplitAll(s[1..]);
      [[s[0]] + rest[0]] + rest[1..]
  }

  /** The pieces joined back with commas. */
  function Join(parts: seq<string>): string
    requires |parts| >= 1
  {
    if |parts| == 1 then parts[0] else parts[0] + [SEPARATOR] + Join(parts[1..])
  }

  /** Splitting loses nothing: joining the pieces gives the string back, and no piece holds a comma. */
  lemma {:induction false} SplitAllJoin(s: string)
    ensures Join(SplitAll(s)) == s
    ensures forall k :: 0 <= k < |SplitAll(s)| ==> SEPARATOR !in SplitAll(s)[k]
  {
    if s != [] {
      SplitAllJoin(s[1..]);
      var rest := SplitAll(s[1..]);
      if s[0] == SEPARATOR {
        assert SplitAll(s)[1..] == rest;
      } else {
        var parts := SplitAll(s);
        assert parts[1..] == rest[1..];
        assert parts[0] == [s[0]] + rest[0];
        if |rest| > 1 {
          assert rest == [rest[0]] + rest[1..];
        }
        forall k | 0 <= k < |parts| ensures SEPARATOR !in parts[k] {
          if k > 0 { assert parts[k] == rest[k]; }
        }
      }
    }
  }

  /** A piece without commas followed by a comma comes off as one field. */
  lemma {:induction false} SplitAllField(a: string, rest: string)
    requires SEPARATOR !in a
    ensures SplitAll(a + [SEPARATOR] + rest) == [a] + SplitAll(rest)
  {
    if a != [] {
      var m := a + [SEPARATOR] + rest;
      assert m[0] == a[0] && m[1..] == a[1..] + [SEPARATOR] + rest;
      assert a[0] != SEPARATOR;
      SplitAllField(a[1..], rest);
      assert [a[0]] + a[1..] == a;
    }
  }

  lemma {:induction false} SplitAllNoSeparator(s: string)
    requires SEPARATOR !in s
    ensures SplitAll(s) == [s]
  {
    if s != [] {
      SplitAllNoSeparator(s[1..]);
      assert s == [s[0]] + s[1..];
    }
  }

  /** Java's split with limit 0 drops trailing empty strings. */
  function StripTrailingEmpty(parts: seq<string>): (r: seq<string>)
    ensures |r| <= |parts| && r == parts[..|r|]
    ensures r == [] || r[|r| - 1] != []
    ensures forall k :: |r| <= k < |parts| ==> parts[k] == []
  {
    if parts != [] && parts[|parts| - 1] == [] then StripTrailingEmpty(parts[..|parts| - 1]) else parts
  }

  /**
   * `message.split(",")`: a string without a comma is returned whole (even
   * the empty string); otherwise the pieces, less trailing empty ones.
   */
  function JavaSplit(s: string): (parts: seq<string>)
    ensures forall k :: 0 <= k < |parts| ==> SEPARATOR !in parts[k]
    ensures SEPARATOR in s ==> parts == [] || parts[|parts| - 1] != []
  {
    if SEPARATOR !in s then [s]
    else
      SplitAllJoin(s);
      StripTrailingEmpty(SplitAll(s))
  }

  /** String.trim: drops leading and trailing characters up to U+0020. */
  function Trim(s: string): (r: string)
    ensures |r| <= |s|
    ensures r == [] || (r[0] > ' ' && r[|r| - 1] > ' ')
  {
    TrimEnd(TrimStart(s))
  }

  function TrimStart(s: string): (r: string)
    ensures r == [] || r[0] > ' '
    ensures |r| <= |s|
  {
    if s != [] && s[0] <= ' ' then TrimStart(s[1..]) else s
  }

  function TrimEnd(s: string): (r: string)
    ensures |r| <= |s| && r == s[..|r|]
    ensures r == [] || r[|r| - 1] > ' '
  {
    if s != [] && s[|s| - 1] <= ' ' then TrimEnd(s[..|s| - 1]) else s
  }

  /**
   * Trimming keeps the slice s[i..j]: it leaves no blank at either end, and
   * what it drops before i and from j on is all blanks.
   */
  lemma TrimBounds(s: string) returns (i: nat, j: nat)
    ensures i <= j <= |s| && Trim(s) == s[i..j]
    ensures Trim(s) == [] || (Trim(s)[0] > ' ' && Trim(s)[|Trim(s)| - 1] > ' ')
    ensures forall k :: 0 <= k < i ==> s[k] <= ' '
    ensures forall k :: j <= k < |s| ==> s[k] <= ' '
  {
    i := TrimStartSpec(s);
    var t := TrimStart(s);
    var n := TrimEndSpec(t);
    var r := Trim(s);
    if r != [] {
      assert r[0] == t[0];
    }
    SliceOfSuffix(s, i, n);
    BlanksAfter(s, i, n);
    j := i + n;
  }

  lemma SliceOfSuffix(s: string, i: nat, n: nat)
    requires i + n <= |s|
    ensures s[i..][..n] == s[i..i + n]
  {
  }

  lemma BlanksAfter(s: string, i: nat, j: nat)
    requires i <= |s| && j <= |s| - i
    requires forall k :: j <= k < |s[i..]| ==> s[i..][k] <= ' '
    ensures forall k :: i + j <= k < |s| ==> s[k] <= ' '
  {
    forall k | i + j <= k < |s| ensures s[k] <= ' ' {
      assert s[k] == s[i..][k - i];
    }
  }

  /** TrimStart drops a prefix of blanks, i characters long. */
  lemma {:induction false} TrimStartSpec(s: string) returns (i: nat)
    ensures i <= |s| && TrimStart(s) == s[i..]
    ensures forall k :: 0 <= k < i ==> s[k] <= ' '
  {
    if s != [] && s[0] <= ' ' {
      var i' := TrimStartSpec(s[1..]);
      assert s[1..][i'..] == s[i' + 1..];
      forall k | 0 <= k < i' + 1 ensures s[k] <= ' ' {
        if k > 0 { assert s[k] == s[1..][k - 1]; }
      }
      i := i' + 1;
    } else {
      i := 0;
    }
  }

  /** TrimEnd keeps a prefix of length j; everything after it is blank. */
  lemma {:induction false} TrimEndSpec(s: string) returns (j: nat)
    ensures j <= |s| && TrimEnd(s) == s[..j]
    ensures forall k :: j <= k < |s| ==> s[k] <= ' '
  {
    if s != [] && s[|s| - 1] <= ' ' {
      var init := s[..|s| - 1];
      j := TrimEndSpec(init);
      assert init[..j] == s[..j];
      forall k | j <= k < |s| ensures s[k] <= ' ' {
        if k < |init| { assert s[k] == init[k]; }
      }
    } else {
      j := |s|;
      assert TrimEnd(s) == s[..|s|];
    }
  }

  /** Trimming adds no comma. */
  lemma TrimNoSeparator(s: string)
    ensures SEPARATOR !in s ==> SEPARATOR !in Trim(s)
  {
    var i, j := TrimBounds(s);
    if SEPARATOR in Trim(s) {
      var k :| 0 <= k < |Trim(s)| && Trim(s)[k] == SEPARATOR;
      assert s[i + k] == SEPARATOR;
    }
  }

  /** A field that neither starts nor ends with a blank is not changed by trimming. */
  lemma TrimUnchanged(s: string)
    requires s == [] || (s[0] > ' ' && s[|s| - 1] > ' ')
    ensures Trim(s) == s
  {
  }

  /**
   * processMessage: exactly four fields, else "Invalid message"; an id, a
   * timestamp or a data field that does not parse gives "Invalid number
   * format in message: " followed by the message; otherwise one store call.
   */
  function ParseMessage(message: string, parseDouble: string -> Option<real>): (r: Result<StoreCall, string>)
    ensures |JavaSplit(message)| != 4 ==> r == Err(INVALID_MESSAGE)
    ensures |JavaSplit(message)| == 4 && r.Err? ==> r.error == INVALID_NUMBER + message
    ensures r.Ok? ==>
      && INT_MIN <= r.value.patientId <= INT_MAX
      && LONG_MIN <= r.value.timestamp <= LONG_MAX
      && SEPARATOR !in r.value.recordLabel
      && |JavaSplit(message)| == 4
      && ParseInt(Trim(JavaSplit(message)[0])) == Some(r.value.patientId)
      && ParseLong(Trim(JavaSplit(message)[1])) == Some(r.value.timestamp)
      && r.value.recordLabel == Trim(JavaSplit(message)[2])
      && parseDouble(Trim(JavaSplit(message)[3])) == Some(r.value.data)
  {
    var parts := JavaSplit(message);
    if |parts| != 4 then Err(INVALID_MESSAGE)
    else
      TrimNoSeparator(parts[2]);
      match (ParseInt(Trim(parts[0])), ParseLong(Trim(parts[1])), parseDouble(Trim(parts[3])))
      case (Some(patientId), Some(timestamp), Some(data)) => Ok(StoreCall(patientId, data, Trim(parts[2]), timestamp))
      case _ => Err(INVALID_NUMBER + message)
  }

  /** onMessage: an invalid message is reported and dropped; a valid one is stored once. */
  function OnMessage(message: string, parseDouble: string -> Option<real>): (calls: seq<StoreCall>)
    ensures |calls| <= 1
    ensures |calls| == 1 <==> ParseMessage(message, parseDouble).Ok?
    ensures |calls| == 1 ==> ParseMessage(message, parseDouble) == Ok(calls[0])
  {
    match ParseMessage(message, parseDouble)
    case Ok(call) => [call]
    case Err(_) => []
  }

  /** The store calls made for a stream of messages, in arrival order. */
  function Received(messages: seq<string>, parseDouble: string -> Option<real>): seq<StoreCall>
  {
    if messages == [] then []
    else Received(messages[..|messages| - 1], parseDouble) + OnMessage(messages[|messages| - 1], parseDouble)
  }

  /** Messages are handled independently: no state carries over from one to the next. */
  lemma {:induction false} ReceivedAppend(a: seq<string>, b: seq<string>, parseDouble: string -> Option<real>)
    ensures Received(a + b, parseDouble) == Received(a, parseDouble) + Received(b, parseDouble)
    decreases |b|
  {
    if b == [] {
      assert a + b == a;
    } else {
      assert (a + b)[..|a + b| - 1] == a + b[..|b| - 1];
      ReceivedAppend(a, b[..|b| - 1], parseDouble);
    }
  }

  /** Exactly one store call per valid message and none per invalid one. */
  lemma {:induction false} ReceivedCount(messages: seq<string>, parseDouble: string -> Option<real>)
    ensures |Received(messages, parseDouble)| == |ValidMessages(messages, parseDouble)|
    ensures forall k :: 0 <= k < |ValidMessages(messages, parseDouble)| ==>
      Ok(Received(messages, parseDouble)[k]) == ParseMessage(ValidMessages(messages, parseDouble)[k], parseDouble)
  {
    if messages != [] {
      var init := messages[..|messages| - 1];
      ReceivedCount(init, parseDouble);
    }
  }

  /** The messages that parse, in arrival order. */
  function ValidMessages(messages: seq<string>, parseDouble: string -> Option<real>): seq<string>
  {
    if messages == [] then []
    else ValidMessages(messages[..|messages| - 1], parseDouble)
         + (if ParseMessage(messages[|messages| - 1], parseDouble).Ok? then [messages[|messages| - 1]] else [])
  }

  /** The onMessage callback applied to each message as it arrives. */
  method ReceiveAll(messages: seq<string>, parseDouble: string -> Option<real>) returns (calls: seq<StoreCall>)
    ensures calls == Received(messages, parseDouble)
  {
    calls := [];
    for i := 0 to |messages|
      invariant calls == Received(messages[..i], parseDouble)
    {
      assert messages[..i + 1][..i] == messages[..i];
      match ParseMessage(messages[i], parseDouble)
      case Ok(call) =>
        calls := calls + [call];
      case Err(_) =>
    }
    assert messages[..|messages|] == messages;
  }

  /** "a,b,c,d" as the server sends it. */
  function Fields(a: string, b: string, c: string, d: string): string
  {
    a + [SEPARATOR] + b + [SEPARATOR] + c + [SEPARATOR] + d
  }

  lemma FieldsSplit(a: string, b: string, c: string, d: string)
    requires SEPARATOR !in a && SEPARATOR !in b && SEPARATOR !in c && SEPARATOR !in d
    ensures SplitAll(Fields(a, b, c, d)) == [a, b, c, d]
    ensures SEPARATOR in Fields(a, b, c, d)
  {
    var m := Fields(a, b, c, d);
    assert m == a + [SEPARATOR] + (b + [SEPARATOR] + (c + [SEPARATOR] + d));
    SplitAllField(a, b + [SEPARATOR] + (c + [SEPARATOR] + d));
    SplitAllField(b, c + [SEPARATOR] + d);
    SplitAllField(c, d);
    SplitAllNoSeparator(d);
    assert m[|a|] == SEPARATOR;
  }

  /** Four comma-free fields, the last one non-empty, split back into themselves. */
  lemma FourFields(a: string, b: string, c: string, d: string)
    requires SEPARATOR !in a && SEPARATOR !in b && SEPARATOR !in c && SEPARATOR !in d && d != []
    ensures JavaSplit(Fields(a, b, c, d)) == [a, b, c, d]
  {
    FieldsSplit(a, b, c, d);
  }

  lemma IntToStringNoSeparator(i: int)
    ensures SEPARATOR !in IntToString(i)
    ensures IntToString(i)[0] > ' ' && IntToString(i)[|IntToString(i)| - 1] > ' '
  {
    IntToStringShape(i);
    var s := IntToString(i);
    forall k | 0 <= k < |s| ensures s[k] != SEPARATOR && s[k] > ' ' {
      if i < 0 && k > 0 { assert s[k] == s[1..][k - 1]; }
    }
  }

  /**
   * A message written from an int id, a long timestamp, a comma-free label
   * and a non-empty comma-free data field that parseDouble reads is stored
   * as exactly those values, the label trimmed but otherwise unvalidated.
   */
  lemma MessageRoundTrip(id: int, ts: int, recordLabel: string, data: string, v: real, parseDouble: string -> Option<real>)
    requires INT_MIN <= id <= INT_MAX && LONG_MIN <= ts <= LONG_MAX
    requires SEPARATOR !in recordLabel && SEPARATOR !in data && data != []
    requires parseDouble(Trim(data)) == Some(v)
    ensures ParseMessage(Fields(IntToString(id), IntToString(ts), recordLabel, data), parseDouble)
            == Ok(StoreCall(id, v, Trim(recordLabel), ts))
    ensures OnMessage(Fields(IntToString(id), IntToString(ts), recordLabel, data), parseDouble)
            == [StoreCall(id, v, Trim(recordLabel), ts)]
  {
    var sid, sts := IntToString(id), IntToString(ts);
    IntToStringNoSeparator(id);
    IntToStringNoSeparator(ts);
    FourFields(sid, sts, recordLabel, data);
    var parts := JavaSplit(Fields(sid, sts, recordLabel, data));
    assert parts[0] == sid && parts[1] == sts && parts[2] == recordLabel && parts[3] == data;
    TrimUnchanged(IntToString(id));
    TrimUnchanged(IntToString(ts));
    ParseSignedRoundTrip(id, INT_MIN, INT_MAX);
    ParseSignedRoundTrip(ts, LONG_MIN, LONG_MAX);
  }

  /**
   * Any four comma-free fields, the last non-empty, whose trimmed id,
   * timestamp and data parse are stored as the parsed values and the trimmed
   * label: blanks around a field, a '+' sign and leading zeros are accepted.
   */
  lemma PaddedMessage(a: string, b: string, c: string, d: string, id: int, ts: int, v: real,
                      parseDouble: string -> Option<real>)
    requires SEPARATOR !in a && SEPARATOR !in b && SEPARATOR !in c && SEPARATOR !in d && d != []
    requires ParseInt(Trim(a)) == Some(id) && ParseLong(Trim(b)) == Some(ts) && parseDouble(Trim(d)) == Some(v)
    ensures ParseMessage(Fields(a, b, c, d), parseDouble) == Ok(StoreCall(id, v, Trim(c), ts))
  {
    FourFields(a, b, c, d);
  }

  /** A trailing comma leaves three fields after split drops the empty last one: rejected. */
  lemma TrailingSeparatorRejected(a: string, b: string, c: string, parseDouble: string -> Option<real>)
    requires SEPARATOR !in a && SEPARATOR !in b && SEPARATOR !in c
    ensures ParseMessage(Fields(a, b, c, []), parseDouble) == Err(INVALID_MESSAGE)
    ensures OnMessage(Fields(a, b, c, []), parseDouble) == []
  {
    FieldsSplit(a, b, c, []);
    var parts: seq<string> := [a, b, c, []];
    assert parts[..3] == [a, b, c];
    assert StripTrailingEmpty(parts) == StripTrailingEmpty([a, b, c]);
  }

  /** "1,2,ECG," is rejected. */
  lemma TrailingCommaExample(parseDouble: string -> Option<real>)
    ensures ParseMessage("1,2,ECG,", parseDouble) == Err(INVALID_MESSAGE)
  {
    assert "1,2,ECG," == Fields("1", "2", "ECG", []);
    TrailingSeparatorRejected("1", "2", "ECG", parseDouble);
  }

  /** Four fields whose id, timestamp or data does not parse: rejected before any store call. */
  lemma BadNumberRejected(a: string, b: string, c: string, d: string, parseDouble: string -> Option<real>)
    requires SEPARATOR !in a && SEPARATOR !in b && SEPARATOR !in c && SEPARATOR !in d && d != []
    requires ParseInt(Trim(a)).None? || ParseLong(Trim(b)).None? || parseDouble(Trim(d)).None?
    ensures ParseMessage(Fields(a, b, c, d), parseDouble) == Err(INVALID_NUMBER + Fields(a, b, c, d))
    ensures OnMessage(Fields(a, b, c, d), parseDouble) == []
  {
    FieldsSplit(a, b, c, d);
  }
}
