/**
 * FileDataReader.processFile, line by line: a line that matches
 * `Patient ID: (\d+), Timestamp: (\d+), Label: (\w+), Data: ([-+]?\d*\.?\d+)`
 * in full becomes one addPatientData call, unless its id or timestamp
 * overflows, which prints "Error parsing line: " and the line; any other
 * line is skipped. The matcher is written out by hand: every group is
 * followed by a character it cannot contain, so the regex never has a choice.
 */
module FileDataReader {
  import opened Wrappers
  import opened Decimal
  import opened DataStorage
  import opened FileOutputStrategy

  const PARSE_ERROR: string := "Error parsing line: "

  /** `\w`: ASCII letters, digits and the underscore. */
  predicate IsWordChar(c: char) { 'a' <= c <= 'z' || 'A' <= c <= 'Z' || IsDigit(c) || c == '_' }

  predicate AllWordChars(s: string) { forall i :: 0 <= i < |s| ==> IsWordChar(s[i]) }

  /** The length of the longest run of digits at the start of s. */
  function DigitRun(s: string): (n: nat)
    ensures n <= |s|
  {
    if s != [] && IsDigit(s[0]) then 1 + DigitRun(s[1..]) else 0
  }

  /** The length of the longest run of word characters at the start of s. */
  function WordRun(s: string): (n: nat)
    ensures n <= |s|
  {
    if s != [] && IsWordChar(s[0]) then 1 + WordRun(s[1..]) else 0
  }

  /** A run of digits stops at the first non-digit. */
  lemma {:induction false} DigitRunConcat(a: string, b: string)
    requires AllDigits(a) && (b == [] || !IsDigit(b[0]))
    ensures DigitRun(a + b) == |a|
  {
    if a != [] {
      assert (a + b)[1..] == a[1..] + b;
      DigitRunConcat(a[1..], b);
    } else {
      assert a + b == b;
    }
  }

  lemma {:induction false} WordRunConcat(a: string, b: string)
    requires AllWordChars(a) && (b == [] || !IsWordChar(b[0]))
    ensures WordRun(a + b) == |a|
  {
    if a != [] {
      assert (a + b)[1..] == a[1..] + b;
      WordRunConcat(a[1..], b);
    } else {
      assert a + b == b;
    }
  }

  /** `\d*\.?\d+` with no sign: digits, or digits, a point and at least one digit. */
  predicate IsUnsignedShape(b: string)
  {
    || (|b| > 0 && AllDigits(b))
    || (exists k :: 0 <= k < |b| - 1 && b[k] == '.' && AllDigits(b[..k]) && AllDigits(b[k + 1..]))
  }

  predicate HasSign(s: string) { s != [] && (s[0] == '-' || s[0] == '+') }

  function Unsigned(s: string): string { if HasSign(s) then s[1..] else s }

  /** `[-+]?\d*\.?\d+`. */
  predicate IsDataShape(s: string) { IsUnsignedShape(Unsigned(s)) }

  /** The position of the first '.', or |s| if there is none. */
  function PointIndex(s: string): (k: nat)
    ensures k <= |s| && (k < |s| ==> s[k] == '.')
    ensures forall j :: 0 <= j < k ==> s[j] != '.'
  {
    if s == [] || s[0] == '.' then 0 else 1 + PointIndex(s[1..])
  }

  function Pow10(n: nat): (p: nat)
    ensures p >= 1
  {
    if n == 0 then 1 else 10 * Pow10(n - 1)
  }

  /** The exact decimal value of a data field of the accepted shape. */
  function DataValue(s: string): (v: real)
    requires IsDataShape(s)
    ensures s[0] == '-' ==> v <= 0.0
    ensures s[0] != '-' ==> v >= 0.0
  {
    var magnitude := Magnitude(Unsigned(s));
    if s[0] == '-' then -magnitude else magnitude
  }

  /** The value of an unsigned number: its digits, or its whole part plus its fraction. */
  function Magnitude(b: string): (m: real)
    requires IsUnsignedShape(b)
    ensures m >= 0.0
  {
    var k := PointIndex(b);
    if k == |b| then DigitsValue(b) as real
    else
      assert AllDigits(b[..k]) && AllDigits(b[k + 1..]) by { PointIndexOfShape(b); }
      var fraction := DigitsValue(b[k + 1..]) as real / Pow10(|b| - k - 1) as real;
      QuotientNonNegative(DigitsValue(b[k + 1..]) as real, Pow10(|b| - k - 1) as real);
      DigitsValue(b[..k]) as real + fraction
  }

  lemma QuotientNonNegative(x: real, y: real)
    requires x >= 0.0 && y > 0.0
    ensures x / y >= 0.0
  {
  }

  /** A field of digits reads as their value, and with a leading '-' as its negation. */
  lemma DataValueOfInteger(a: string)
    requires |a| > 0 && AllDigits(a)
    ensures IsDataShape(a) && DataValue(a) == DigitsValue(a) as real
    ensures IsDataShape("-" + a) && DataValue("-" + a) == -(DigitsValue(a) as real)
  {
    PointIndexOfDigits(a);
    assert Unsigned("-" + a) == a;
  }

  /** "a.c" reads as a plus c tenths, hundredths, ..., and "-a.c" as its negation. */
  lemma DataValueOfDecimal(a: string, c: string)
    requires AllDigits(a) && AllDigits(c) && |c| > 0
    ensures IsDataShape(a + "." + c)
    ensures DataValue(a + "." + c) == DigitsValue(a) as real + DigitsValue(c) as real / Pow10(|c|) as real
    ensures IsDataShape("-" + a + "." + c)
    ensures DataValue("-" + a + "." + c) == -(DigitsValue(a) as real + DigitsValue(c) as real / Pow10(|c|) as real)
  {
    var b := a + "." + c;
    DecimalParts(a, c);
    assert Magnitude(b) == DigitsValue(a) as real + DigitsValue(c) as real / Pow10(|c|) as real;
    assert Unsigned(b) == b;
    assert "-" + a + "." + c == "-" + b;
    assert Unsigned("-" + b) == b;
    assert ("-" + b)[0] == '-';
  }

  /** How "a.c" splits at its point. */
  lemma DecimalParts(a: string, c: string)
    requires AllDigits(a) && AllDigits(c) && |c| > 0
    ensures var b := a + "." + c;
      && IsUnsignedShape(b) && !HasSign(b) && PointIndex(b) == |a|
      && b[..|a|] == a && b[|a| + 1..] == c && |b| - |a| - 1 == |c|
  {
    var b := a + "." + c;
    assert b[..|a|] == a && b[|a| + 1..] == c && b[|a|] == '.';
    PointIndexAt(b, |a|);
    if a != [] {
      assert IsDigit(a[0]) && b[0] == a[0];
    }
  }

  /** In a number of the accepted shape, the first point is the only one. */
  lemma PointIndexOfShape(b: string)
    requires IsUnsignedShape(b)
    ensures PointIndex(b) < |b| ==> AllDigits(b[..PointIndex(b)]) && AllDigits(b[PointIndex(b) + 1..])
    ensures PointIndex(b) == |b| ==> AllDigits(b)
  {
    if |b| > 0 && AllDigits(b) {
      PointIndexOfDigits(b);
    } else {
      var m :| 0 <= m < |b| - 1 && b[m] == '.' && AllDigits(b[..m]) && AllDigits(b[m + 1..]);
      PointIndexAt(b, m);
    }
  }

  lemma {:induction false} PointIndexOfDigits(b: string)
    requires AllDigits(b)
    ensures PointIndex(b) == |b|
  {
    if b != [] {
      PointIndexOfDigits(b[1..]);
    }
  }

  lemma {:induction false} PointIndexAt(b: string, m: nat)
    requires m < |b| && b[m] == '.' && AllDigits(b[..m])
    ensures PointIndex(b) == m
  {
    if m > 0 {
      assert IsDigit(b[..m][0]);
      assert b[1..][..m - 1] == b[..m][1..];
      PointIndexAt(b[1..], m - 1);
    }
  }

  /** The four capture groups. */
  datatype Groups = Groups(id: string, timestamp: string, recordLabel: string, data: string)

  /**
   * `pattern.matcher(line).matches()` and its groups, one stage per group:
   * the literal "Patient ID: ", then the id digits.
   */
  function Match(line: string): (g: Option<Groups>)
    ensures g.Some? ==> IsDataShape(g.value.data)
  {
    if ID_PREFIX <= line then MatchId(line[|ID_PREFIX|..]) else None
  }

  function MatchId(r: string): (g: Option<Groups>)
    ensures g.Some? ==> IsDataShape(g.value.data)
  {
    var n := DigitRun(r);
    if n > 0 && TIMESTAMP_PREFIX <= r[n..] then MatchTimestamp(r[..n], r[n + |TIMESTAMP_PREFIX|..]) else None
  }

  function MatchTimestamp(id: string, r: string): (g: Option<Groups>)
    ensures g.Some? ==> IsDataShape(g.value.data)
  {
    var n := DigitRun(r);
    if n > 0 && LABEL_PREFIX <= r[n..] then MatchLabel(id, r[..n], r[n + |LABEL_PREFIX|..]) else None
  }

  function MatchLabel(id: string, timestamp: string, r: string): (g: Option<Groups>)
    ensures g.Some? ==> IsDataShape(g.value.data)
  {
    var n := WordRun(r);
    if n > 0 && DATA_PREFIX <= r[n..] then MatchData(id, timestamp, r[..n], r[n + |DATA_PREFIX|..]) else None
  }

  function MatchData(id: string, timestamp: string, recordLabel: string, data: string): (g: Option<Groups>)
    ensures g.Some? ==> IsDataShape(g.value.data)
  {
    if IsDataShape(data) then Some(Groups(id, timestamp, recordLabel, data)) else None
  }

  /** What processing one line does. */
  datatype LineResult = Skipped | Failed(message: string) | Stored(call: StoreCall)

  /** One line of processFile: match, then parseInt and parseLong, then store. */
  function ParseLine(line: string): (r: LineResult)
    ensures r.Skipped? <==> Match(line).None?
    ensures r.Failed? ==> r.message == PARSE_ERROR + line
    ensures r.Stored? ==>
      && INT_MIN <= r.call.patientId <= INT_MAX && r.call.patientId >= 0
      && LONG_MIN <= r.call.timestamp <= LONG_MAX && r.call.timestamp >= 0
      && |r.call.recordLabel| > 0 && AllWordChars(r.call.recordLabel)
  {
    MatchSound(line);
    match Match(line)
    case None => Skipped
    case Some(g) =>
      match (ParseInt(g.id), ParseLong(g.timestamp))
      case (Some(patientId), Some(timestamp)) =>
        Stored(StoreCall(patientId, DataValue(g.data), g.recordLabel, timestamp))
      case _ => Failed(PARSE_ERROR + line)
  }

  lemma DropPrefix(p: string, rest: string)
    ensures p <= p + rest && (p + rest)[|p|..] == rest
  {
  }

  /** The text the four groups and the pattern's literals spell out. */
  function GroupsLine(g: Groups): string
  {
    ID_PREFIX + (g.id + TIMESTAMP_PREFIX + (g.timestamp + LABEL_PREFIX + (g.recordLabel + DATA_PREFIX + g.data)))
  }

  /** Each group is of the form its part of the pattern demands. */
  predicate WellFormedGroups(g: Groups)
  {
    && |g.id| > 0 && AllDigits(g.id)
    && |g.timestamp| > 0 && AllDigits(g.timestamp)
    && |g.recordLabel| > 0 && AllWordChars(g.recordLabel)
    && IsDataShape(g.data)
  }

  /**
   * `matches()` is a whole-line match: a line matches with groups g exactly
   * when the groups have the pattern's forms and the line is the literals
   * and the groups, with nothing before or after.
   */
  lemma MatchIff(line: string, g: Groups)
    ensures Match(line) == Some(g) <==> WellFormedGroups(g) && line == GroupsLine(g)
  {
    MatchSound(line);
    if WellFormedGroups(g) && line == GroupsLine(g) {
      MatchComplete(g);
    }
  }

  /** What a match returns: well-formed groups that spell out the whole line. */
  lemma MatchSound(line: string)
    ensures Match(line).Some? ==> WellFormedGroups(Match(line).value) && line == GroupsLine(Match(line).value)
  {
    if ID_PREFIX <= line {
      var r := line[|ID_PREFIX|..];
      assert line == ID_PREFIX + r;
      assert Match(line) == MatchId(r);
      MatchIdSound(r);
    }
  }

  /** Every line spelled out by well-formed groups matches, with those groups. */
  lemma MatchComplete(g: Groups)
    requires WellFormedGroups(g)
    ensures Match(GroupsLine(g)) == Some(g)
  {
    var r3 := g.recordLabel + DATA_PREFIX + g.data;
    var r2 := g.timestamp + LABEL_PREFIX + r3;
    var r1 := g.id + TIMESTAMP_PREFIX + r2;
    DropPrefix(ID_PREFIX, r1);
    assert Match(ID_PREFIX + r1) == MatchId(r1);
    MatchIdStep(g.id, r2);
    MatchTimestampStep(g.id, g.timestamp, r3);
    MatchLabelStep(g.id, g.timestamp, g.recordLabel, g.data);
  }

  lemma {:induction false} DigitRunDigits(s: string)
    ensures AllDigits(s[..DigitRun(s)])
  {
    if s != [] && IsDigit(s[0]) {
      DigitRunDigits(s[1..]);
      var n := DigitRun(s[1..]);
      forall i | 0 <= i < n + 1 ensures IsDigit(s[i]) {
        if i > 0 { assert s[i] == s[1..][..n][i - 1]; }
      }
    }
  }

  lemma {:induction false} WordRunWords(s: string)
    ensures AllWordChars(s[..WordRun(s)])
  {
    if s != [] && IsWordChar(s[0]) {
      WordRunWords(s[1..]);
      var n := WordRun(s[1..]);
      forall i | 0 <= i < n + 1 ensures IsWordChar(s[i]) {
        if i > 0 { assert s[i] == s[1..][..n][i - 1]; }
      }
    }
  }

  /** The id stage: a digit run, ", Timestamp: ", then what the timestamp stage accepts. */
  lemma MatchIdSound(r: string)
    ensures MatchId(r).Some? ==>
      var g := MatchId(r).value;
      WellFormedGroups(g)
      && r == g.id + TIMESTAMP_PREFIX + (g.timestamp + LABEL_PREFIX + (g.recordLabel + DATA_PREFIX + g.data))
  {
    var n := DigitRun(r);
    if n > 0 && TIMESTAMP_PREFIX <= r[n..] {
      DigitRunDigits(r);
      var rest := r[n + |TIMESTAMP_PREFIX|..];
      MatchTimestampSound(r[..n], rest);
      assert r[n..] == TIMESTAMP_PREFIX + rest;
      assert r == r[..n] + TIMESTAMP_PREFIX + rest;
    }
  }

  /** The timestamp stage: a digit run, ", Label: ", then what the label stage accepts. */
  lemma MatchTimestampSound(id: string, r: string)
    ensures MatchTimestamp(id, r).Some? ==>
      var g := MatchTimestamp(id, r).value;
      && g.id == id && |g.timestamp| > 0 && AllDigits(g.timestamp)
      && |g.recordLabel| > 0 && AllWordChars(g.recordLabel) && IsDataShape(g.data)
      && r == g.timestamp + LABEL_PREFIX + (g.recordLabel + DATA_PREFIX + g.data)
  {
    var n := DigitRun(r);
    if n > 0 && LABEL_PREFIX <= r[n..] {
      DigitRunDigits(r);
      var rest := r[n + |LABEL_PREFIX|..];
      MatchLabelSound(id, r[..n], rest);
      assert r[n..] == LABEL_PREFIX + rest;
      assert r == r[..n] + LABEL_PREFIX + rest;
    }
  }

  /** The label stage: a word run, ", Data: ", then a data field of the accepted shape. */
  lemma MatchLabelSound(id: string, timestamp: string, r: string)
    ensures MatchLabel(id, timestamp, r).Some? ==>
      var g := MatchLabel(id, timestamp, r).value;
      && g.id == id && g.timestamp == timestamp
      && |g.recordLabel| > 0 && AllWordChars(g.recordLabel) && IsDataShape(g.data)
      && r == g.recordLabel + DATA_PREFIX + g.data
  {
    var n := WordRun(r);
    if n > 0 && DATA_PREFIX <= r[n..] {
      WordRunWords(r);
      var rest := r[n + |DATA_PREFIX|..];
      assert r[n..] == DATA_PREFIX + rest;
      assert r == r[..n] + DATA_PREFIX + rest;
    }
  }

  /**
   * Matching a printed line: with a non-negative id and timestamp and a
   * word label, it matches exactly when the data has the accepted shape,
   * and then the groups are the printed fields.
   */
  lemma MatchFormat(id: nat, ts: nat, recordLabel: string, data: string)
    requires |recordLabel| > 0 && AllWordChars(recordLabel)
    ensures Match(FormatLine(id, ts, recordLabel, data))
            == if IsDataShape(data) then Some(Groups(IntToString(id), IntToString(ts), recordLabel, data)) else None
  {
    var sid := IntToString(id);
    var sts := IntToString(ts);
    IntToStringShape(id);
    IntToStringShape(ts);
    var r3 := recordLabel + DATA_PREFIX + data;
    var r2 := sts + LABEL_PREFIX + r3;
    var r1 := sid + TIMESTAMP_PREFIX + r2;
    assert FormatLine(id, ts, recordLabel, data) == ID_PREFIX + r1;
    DropPrefix(ID_PREFIX, r1);
    assert Match(ID_PREFIX + r1) == MatchId(r1);
    MatchIdStep(sid, r2);
    MatchTimestampStep(sid, sts, r3);
    MatchLabelStep(sid, sts, recordLabel, data);
  }

  /** The id group is the whole digit run before ", Timestamp: ". */
  lemma MatchIdStep(id: string, rest: string)
    requires |id| > 0 && AllDigits(id)
    ensures MatchId(id + TIMESTAMP_PREFIX + rest) == MatchTimestamp(id, rest)
  {
    var r := id + TIMESTAMP_PREFIX + rest;
    DigitRunConcat(id, TIMESTAMP_PREFIX + rest);
    assert r == id + (TIMESTAMP_PREFIX + rest);
    assert r[..|id|] == id && r[|id|..] == TIMESTAMP_PREFIX + rest;
    assert r[|id| + |TIMESTAMP_PREFIX|..] == rest;
  }

  /** The timestamp group is the whole digit run before ", Label: ". */
  lemma MatchTimestampStep(id: string, timestamp: string, rest: string)
    requires |timestamp| > 0 && AllDigits(timestamp)
    ensures MatchTimestamp(id, timestamp + LABEL_PREFIX + rest) == MatchLabel(id, timestamp, rest)
  {
    var r := timestamp + LABEL_PREFIX + rest;
    DigitRunConcat(timestamp, LABEL_PREFIX + rest);
    assert r == timestamp + (LABEL_PREFIX + rest);
    assert r[..|timestamp|] == timestamp && r[|timestamp|..] == LABEL_PREFIX + rest;
    assert r[|timestamp| + |LABEL_PREFIX|..] == rest;
  }

  /** The label group is the whole word run before ", Data: "; the rest is the data group. */
  lemma MatchLabelStep(id: string, timestamp: string, recordLabel: string, data: string)
    requires |recordLabel| > 0 && AllWordChars(recordLabel)
    ensures MatchLabel(id, timestamp, recordLabel + DATA_PREFIX + data) == MatchData(id, timestamp, recordLabel, data)
  {
    var r := recordLabel + DATA_PREFIX + data;
    WordRunConcat(recordLabel, DATA_PREFIX + data);
    assert r == recordLabel + (DATA_PREFIX + data);
    assert r[..|recordLabel|] == recordLabel && r[|recordLabel|..] == DATA_PREFIX + data;
    assert r[|recordLabel| + |DATA_PREFIX|..] == data;
  }

  /**
   * Round trip: a line printed by FileOutputStrategy from an id in
   * [0, INT_MAX], a timestamp in [0, LONG_MAX], a word label and a data
   * field of the accepted shape is stored as exactly those values.
   */
  lemma FormatThenParse(id: nat, ts: nat, recordLabel: string, data: string)
    requires id <= INT_MAX && ts <= LONG_MAX
    requires |recordLabel| > 0 && AllWordChars(recordLabel) && IsDataShape(data)
    ensures ParseLine(FormatLine(id, ts, recordLabel, data)) == Stored(StoreCall(id, DataValue(data), recordLabel, ts))
  {
    MatchFormat(id, ts, recordLabel, data);
    ParseSignedRoundTrip(id, INT_MIN, INT_MAX);
    ParseSignedRoundTrip(ts, LONG_MIN, LONG_MAX);
  }

  /**
   * Any matching line, leading zeros included: stored as the digit values of
   * its id and timestamp groups, its label and the value of its data group
   * when both numbers are in range, and otherwise the error line.
   */
  lemma ParseLineValues(line: string, g: Groups)
    requires Match(line) == Some(g)
    ensures WellFormedGroups(g)
    ensures ParseLine(line)
            == if DigitsValue(g.id) <= INT_MAX && DigitsValue(g.timestamp) <= LONG_MAX
               then Stored(StoreCall(DigitsValue(g.id), DataValue(g.data), g.recordLabel, DigitsValue(g.timestamp)))
               else Failed(PARSE_ERROR + line)
  {
    MatchSound(line);
    ParseSignedDigits(g.id, INT_MIN, INT_MAX);
    ParseSignedDigits(g.timestamp, LONG_MIN, LONG_MAX);
  }

  /** A data field outside the shape, such as "triggered", makes the line skipped. */
  lemma NonNumericDataSkipped(id: nat, ts: nat, recordLabel: string, data: string)
    requires |recordLabel| > 0 && AllWordChars(recordLabel) && !IsDataShape(data)
    ensures ParseLine(FormatLine(id, ts, recordLabel, data)) == Skipped
  {
    MatchFormat(id, ts, recordLabel, data);
  }

  lemma TriggeredIsNotData()
    ensures !IsDataShape("triggered")
  {
    assert !IsDigit("triggered"[0]);
  }

  /** An id too large for an int gives the error line, and nothing is stored. */
  lemma OverflowingIdFails(id: nat, ts: nat, recordLabel: string, data: string)
    requires id > INT_MAX && ts <= LONG_MAX
    requires |recordLabel| > 0 && AllWordChars(recordLabel) && IsDataShape(data)
    ensures ParseLine(FormatLine(id, ts, recordLabel, data)) == Failed(PARSE_ERROR + FormatLine(id, ts, recordLabel, data))
  {
    MatchFormat(id, ts, recordLabel, data);
    ParseSignedRejectsOverflow(id, INT_MIN, INT_MAX);
  }

  /** A timestamp too large for a long gives the error line too. */
  lemma OverflowingTimestampFails(id: nat, ts: nat, recordLabel: string, data: string)
    requires ts > LONG_MAX
    requires |recordLabel| > 0 && AllWordChars(recordLabel) && IsDataShape(data)
    ensures ParseLine(FormatLine(id, ts, recordLabel, data)) == Failed(PARSE_ERROR + FormatLine(id, ts, recordLabel, data))
  {
    MatchFormat(id, ts, recordLabel, data);
    ParseSignedRejectsOverflow(ts, LONG_MIN, LONG_MAX);
  }

  /** A negative id is printed with a minus sign, which `\d+` refuses. */
  lemma NegativeIdSkipped(id: int, ts: int, recordLabel: string, data: string)
    requires id < 0
    ensures ParseLine(FormatLine(id, ts, recordLabel, data)) == Skipped
  {
    var line := FormatLine(id, ts, recordLabel, data);
    IntToStringShape(id);
    assert line[|ID_PREFIX|] == '-';
    MatchSound(line);
  }

  lemma NegativeIdUnmatched(id: int, rest: string)
    requires id < 0
    ensures Match(ID_PREFIX + IntToString(id) + TIMESTAMP_PREFIX + rest) == None
  {
    var r1 := IntToString(id) + TIMESTAMP_PREFIX + rest;
    assert ID_PREFIX + IntToString(id) + TIMESTAMP_PREFIX + rest == ID_PREFIX + r1;
    DropPrefix(ID_PREFIX, r1);
    IntToStringShape(id);
    assert r1[0] == '-';
    assert DigitRun(r1) == 0;
  }

  /** A label with a space or other punctuation stops `\w+` short of ", Data: ". */
  lemma NonWordLabelSkipped(id: nat, ts: nat, word: string, c: char, rest: string, data: string)
    requires AllWordChars(word) && !IsWordChar(c) && c != ','
    ensures ParseLine(FormatLine(id, ts, word + [c] + rest, data)) == Skipped
  {
    var sid := IntToString(id);
    var sts := IntToString(ts);
    IntToStringShape(id);
    IntToStringShape(ts);
    var recordLabel := word + [c] + rest;
    var tail := [c] + rest + DATA_PREFIX + data;
    FormatLineGroups(id, ts, recordLabel, data);
    assert recordLabel + DATA_PREFIX + data == word + tail;
    var r2 := sts + LABEL_PREFIX + (word + tail);
    var r1 := sid + TIMESTAMP_PREFIX + r2;
    DropPrefix(ID_PREFIX, r1);
    assert Match(ID_PREFIX + r1) == MatchId(r1);
    MatchIdStep(sid, r2);
    MatchTimestampStep(sid, sts, word + tail);
    NonWordLabelUnmatched(sid, sts, word, tail);
  }

  /** The printed line is the pattern's literals joined with the printed fields. */
  lemma FormatLineGroups(id: int, ts: int, recordLabel: string, data: string)
    ensures FormatLine(id, ts, recordLabel, data) == GroupsLine(Groups(IntToString(id), IntToString(ts), recordLabel, data))
  {
    var a, b := IntToString(id), IntToString(ts);
    var x3 := recordLabel + DATA_PREFIX + data;
    var x2 := b + LABEL_PREFIX + x3;
    var x1 := a + TIMESTAMP_PREFIX + x2;
    var p3 := ID_PREFIX + a + TIMESTAMP_PREFIX + b + LABEL_PREFIX;
    var p2 := ID_PREFIX + a + TIMESTAMP_PREFIX;
    JoinAssoc(p3 + recordLabel, DATA_PREFIX, data);
    JoinAssoc(p3, recordLabel, DATA_PREFIX + data);
    JoinAssoc(recordLabel, DATA_PREFIX, data);
    assert FormatLine(id, ts, recordLabel, data) == p3 + x3;
    JoinAssoc(p2 + b, LABEL_PREFIX, x3);
    JoinAssoc(p2, b, LABEL_PREFIX + x3);
    JoinAssoc(b, LABEL_PREFIX, x3);
    assert p3 + x3 == p2 + x2;
    JoinAssoc(ID_PREFIX + a, TIMESTAMP_PREFIX, x2);
    JoinAssoc(ID_PREFIX, a, TIMESTAMP_PREFIX + x2);
    JoinAssoc(a, TIMESTAMP_PREFIX, x2);
    assert p2 + x2 == ID_PREFIX + x1;
  }

  lemma JoinAssoc(x: string, y: string, z: string)
    ensures x + y + z == x + (y + z)
  {
  }

  lemma NonWordLabelUnmatched(id: string, timestamp: string, word: string, tail: string)
    requires AllWordChars(word) && |tail| > 0 && !IsWordChar(tail[0]) && tail[0] != ','
    ensures MatchLabel(id, timestamp, word + tail) == None
  {
    WordRunConcat(word, tail);
    assert (word + tail)[|word|..] == tail;
    assert tail[0] != DATA_PREFIX[0];
  }

  function CallOf(r: LineResult): seq<StoreCall>
  {
    if r.Stored? then [r.call] else []
  }

  function ErrorOf(r: LineResult): seq<string>
  {
    if r.Failed? then [r.message] else []
  }

  /** The store calls processFile makes, in file order. */
  function StoredCalls(lines: seq<string>): seq<StoreCall>
  {
    if lines == [] then []
    else StoredCalls(lines[..|lines| - 1])
         + CallOf(ParseLine(lines[|lines| - 1]))
  }

  /** The error lines processFile prints, in file order. */
  function ErrorLines(lines: seq<string>): seq<string>
  {
    if lines == [] then []
    else ErrorLines(lines[..|lines| - 1])
         + ErrorOf(ParseLine(lines[|lines| - 1]))
  }

  /** Lines are processed independently: a bad line does not stop the ones after it. */
  lemma {:induction false} StoredCallsAppend(a: seq<string>, b: seq<string>)
    ensures StoredCalls(a + b) == StoredCalls(a) + StoredCalls(b)
    decreases |b|
  {
    if b == [] {
      assert a + b == a;
    } else {
      assert (a + b)[..|a + b| - 1] == a + b[..|b| - 1];
      StoredCallsAppend(a, b[..|b| - 1]);
    }
  }

  /** Each line contributes its own error message, if any, in file order. */
  lemma {:induction false} ErrorLinesAppend(a: seq<string>, b: seq<string>)
    ensures ErrorLines(a + b) == ErrorLines(a) + ErrorLines(b)
    decreases |b|
  {
    if b == [] {
      assert a + b == a;
    } else {
      assert (a + b)[..|a + b| - 1] == a + b[..|b| - 1];
      ErrorLinesAppend(a, b[..|b| - 1]);
    }
  }

  /** Two well-formed lines give two records, in file order. */
  lemma TwoLinesTwoRecords(id1: nat, ts1: nat, l1: string, d1: string, id2: nat, ts2: nat, l2: string, d2: string)
    requires id1 <= INT_MAX && ts1 <= LONG_MAX && |l1| > 0 && AllWordChars(l1) && IsDataShape(d1)
    requires id2 <= INT_MAX && ts2 <= LONG_MAX && |l2| > 0 && AllWordChars(l2) && IsDataShape(d2)
    ensures StoredCalls([FormatLine(id1, ts1, l1, d1), FormatLine(id2, ts2, l2, d2)])
            == [StoreCall(id1, DataValue(d1), l1, ts1), StoreCall(id2, DataValue(d2), l2, ts2)]
  {
    FormatThenParse(id1, ts1, l1, d1);
    FormatThenParse(id2, ts2, l2, d2);
    StoredPair(FormatLine(id1, ts1, l1, d1), FormatLine(id2, ts2, l2, d2));
  }

  /** Two lines contribute their own calls, the first line's first. */
  lemma StoredPair(x: string, y: string)
    ensures StoredCalls([x, y]) == CallOf(ParseLine(x)) + CallOf(ParseLine(y))
  {
    assert [x, y] == [x] + [y];
    StoredCallsAppend([x], [y]);
    StoredCallsSingle(x);
    StoredCallsSingle(y);
  }

  lemma StoredCallsSingle(x: string)
    ensures StoredCalls([x]) == CallOf(ParseLine(x))
  {
    assert [x][..0] == [];
  }

  /** Taking one more line adds that line's own call and error message. */
  lemma NextLine(lines: seq<string>, i: nat)
    requires i < |lines|
    ensures StoredCalls(lines[..i + 1]) == StoredCalls(lines[..i]) + CallOf(ParseLine(lines[i]))
    ensures ErrorLines(lines[..i + 1]) == ErrorLines(lines[..i]) + ErrorOf(ParseLine(lines[i]))
  {
    assert lines[..i + 1][..i] == lines[..i];
  }

  /** processFile over the lines of one file. */
  method ProcessFile(lines: seq<string>) returns (calls: seq<StoreCall>, errors: seq<string>)
    ensures calls == StoredCalls(lines)
    ensures errors == ErrorLines(lines)
  {
    calls := [];
    errors := [];
    for i := 0 to |lines|
      invariant calls == StoredCalls(lines[..i])
      invariant errors == ErrorLines(lines[..i])
    {
      var line := lines[i];
      NextLine(lines, i);
      match Match(line)
      case Some(g) =>
        var patientId := ParseInt(g.id);
        var timestamp := ParseLong(g.timestamp);
        if patientId.Some? && timestamp.Some? {
          var data := DataValue(g.data);
          calls := calls + [StoreCall(patientId.value, data, g.recordLabel, timestamp.value)];
        } else {
          errors := errors + [PARSE_ERROR + line];
        }
      case None =>
    }
    assert lines[..|lines|] == lines;
  }
}
