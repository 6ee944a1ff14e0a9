# Patient alert engine: a verified model

This project models the alert evaluation engine of a patient-monitoring
system and its two ingestion line parsers.

The engine works like this:

- `AlertGenerator.evaluateData` takes a patient's records of the last 24
  hours. If there are none, it stops. Otherwise it hands the same list to
  five alert strategies in a fixed order:
  - blood pressure (critical values and three-reading trends);
  - oxygen saturation (first low reading, first rapid drop);
  - heart rate (bradycardia and tachycardia, irregular rhythm over the last
    five ECG readings, a peak against a ten-reading sliding mean);
  - hypotensive hypoxemia (the last systolic reading together with the last
    saturation reading);
  - manual alerts (the first "Alert" record within 24 hours).
- Each strategy reports its alerts through an alert factory. In the model,
  each factory call is an `Alert(patientId, condition, timestamp)` value
  appended to the strategy's output, in call order.
- Readings reach the record store in two ways, and each adds one store call
  (`addPatientData(patientId, data, label, timestamp)`) per accepted line:
  - `WebSocketClient.onMessage`/`processMessage` parses comma-separated
    messages.
  - `FileDataReader.processFile` parses lines that match a regular
    expression. That expression is the inverse of the line format
    `FileOutputStrategy` prints.

Layout:

- One module per core Java file: `BloodPressureStrategy`,
  `OxygenSaturationStrategy`, `HeartRateStrategy`,
  `HypotensiveHypoxemiaStrategy`, `ManualAlertStrategy`, `AlertGenerator`,
  `WebSocketClient`, `FileDataReader`.
- Shared modules:
  - `Records`: readings and alerts, the type filter, Java's stable sort by
    timestamp, and the inclusive time-range query of a patient.
  - `Decimal`: `String.valueOf`, `Integer.parseInt` and `Long.parseLong`
    with their overflow checks.
  - `DataStorage`: the store call.
  - `FileOutputStrategy`: the printed line.
  - `Wrappers`: `Option` and `Result`.

Every Java loop is a Dafny method with a loop, proved equal to a
specification function. The properties are lemmas about those functions:

- counts, order and timestamps of the alerts;
- strict versus inclusive boundaries;
- "at most one" and "stops after the first";
- the sliding-sum invariant;
- round trips from printed lines and messages back to store calls.

Where the code and the tests disagree, the model follows the code:

- Trend alerts are labelled "Blood Pressure Trend Alert".
- Only "ECG" records feed the heart-rate rules.
- The hypotensive rule uses list order and no proximity window.
- The trend rule has no time-gap requirement.

## Model

| member | source | states |
|---|---|---|
| Records.OfType | src/main/java/com/alerts/strategy/BloodPressureStrategy.java:46-47 | the filter keeps exactly the records of the given type, and only those |
| Records.OfTypeAppend | src/main/java/com/alerts/strategy/OxygenSaturationStrategy.java:25-26 | filtering distributes over concatenation, so list order is kept |
| Records.OfTypeIdempotent | src/main/java/com/alerts/strategy/HeartRateStrategy.java:22-23 | filtering a filtered list by the same type changes nothing |
| Records.SortByTime | src/main/java/com/alerts/strategy/BloodPressureStrategy.java:48 | the sort returns a permutation of its input |
| Records.SortByTimeSorted | src/main/java/com/alerts/strategy/BloodPressureStrategy.java:48 | the sorted list is in ascending timestamp order |
| Records.SortStable | src/main/java/com/alerts/strategy/HeartRateStrategy.java:24 | records with equal timestamps keep their relative list order (Java's stream sort is stable) |
| Records.SortOfSorted | src/main/java/com/alerts/strategy/OxygenSaturationStrategy.java:27 | a list already in timestamp order is returned unchanged |
| Records.InsertSorted | src/main/java/com/alerts/strategy/BloodPressureStrategy.java:48 | inserting a record into a sorted list keeps it sorted |
| Records.GetRecords | src/main/java/com/alerts/AlertGenerator.java:46 | the window holds exactly the patient's records with start <= timestamp <= end, both ends included |
| Records.Window | src/main/java/com/alerts/AlertGenerator.java:46 | the range query keeps exactly the records with start <= timestamp <= end and is never longer than its input |
| Records.WindowAppend | src/test/java/data_management/PatientTest.java:32-41 | the range query keeps list order: it distributes over concatenation |
| Records.WindowIdempotent | src/main/java/com/alerts/AlertGenerator.java:46 | querying a window again over the same range changes nothing |
| Decimal.DigitsOfNat | src/main/java/com/cardio_generator/outputs/FileOutputStrategy.java:54 | the decimal digits printed for n read back as n |
| Decimal.IntToStringShape | src/main/java/com/cardio_generator/outputs/FileOutputStrategy.java:54 | `%d` prints digits only for n >= 0, and a '-' followed by digits for n < 0 |
| Decimal.IntToString | src/main/java/com/cardio_generator/outputs/FileOutputStrategy.java:54 | `%d` of an int: digits for n >= 0, '-' and digits otherwise (IntToStringShape, DigitsOfNat) |
| Decimal.IntToStringInjective | src/main/java/com/alerts/strategy/BloodPressureStrategy.java:25 | distinct patient ids give distinct alert id strings |
| Decimal.ParseSigned | src/main/java/com/data_management/WebSocketClient.java:67-68 | a successful parse lies within the type's range |
| Decimal.ParseInt | src/main/java/com/data_management/FileDataReader.java:51 | Integer.parseInt: a result always lies in [INT_MIN, INT_MAX] |
| Decimal.ParseLong | src/main/java/com/data_management/FileDataReader.java:52 | Long.parseLong: a result always lies in [LONG_MIN, LONG_MAX] |
| Decimal.ParseSignedDigits | src/main/java/com/data_management/FileDataReader.java:51-52 | an unsigned digit string, leading zeros allowed, parses to its value iff that value is at most the type's maximum |
| Decimal.ParseSignedRoundTrip | src/main/java/com/data_management/WebSocketClient.java:67-68 | parseInt/parseLong read back every in-range value as printed |
| Decimal.ParseSignedRejectsOverflow | src/main/java/com/data_management/FileDataReader.java:51-52 | a digit string above the type's maximum is a NumberFormatException (None) |
| BloodPressureStrategy.CriticalBounds | src/main/java/com/alerts/strategy/BloodPressureStrategy.java:22-37 | a systolic record is critical iff its value is outside [90, 180]; a diastolic one iff outside [60, 120]; any other type never is |
| BloodPressureStrategy.CriticalRecords | src/main/java/com/alerts/strategy/BloodPressureStrategy.java:20-39 | the critical records are exactly the input records that are critical |
| BloodPressureStrategy.CriticalAlertsAreCriticalRecords | src/main/java/com/alerts/strategy/BloodPressureStrategy.java:20-39 | one alert per critical record, not deduplicated, in list order, each labelled "Critical Systolic" or "Critical Diastolic" by type and carrying that record's timestamp |
| BloodPressureStrategy.CriticalAlertsAppend | src/main/java/com/alerts/strategy/BloodPressureStrategy.java:20 | each record is judged on its own: the alerts of a + b are those of a followed by those of b |
| BloodPressureStrategy.TrendAlertsBound | src/main/java/com/alerts/strategy/BloodPressureStrategy.java:51 | fewer than three records give no trend alert; at most count - 2 trend alerts (one per triple, because of the else-if) |
| BloodPressureStrategy.TrendsUpToBound | src/main/java/com/alerts/strategy/BloodPressureStrategy.java:51-70 | the first n triples give at most n trend alerts |
| BloodPressureStrategy.TrendsUpToMembership | src/main/java/com/alerts/strategy/BloodPressureStrategy.java:51-70 | an alert comes from the first n triples iff one of them rises or falls by more than 10 twice, and then it carries the third record's timestamp |
| BloodPressureStrategy.TrendAlertMembership | src/main/java/com/alerts/strategy/BloodPressureStrategy.java:51-70 | an alert is a trend alert iff some consecutive triple of the sorted list rises or falls by more than 10 at both steps, timestamped at its third record |
| BloodPressureStrategy.TrendStartsUpTo | src/main/java/com/alerts/strategy/BloodPressureStrategy.java:51 | the trend starts among the first n triples are all below n |
| BloodPressureStrategy.TrendStarts | src/main/java/com/alerts/strategy/BloodPressureStrategy.java:51-70 | the start index of every triple of the sorted list whose two steps both exceed 10 in the same direction |
| BloodPressureStrategy.TrendStartsUpToSpec | src/main/java/com/alerts/strategy/BloodPressureStrategy.java:51-70 | the starts among the first n triples are strictly increasing, and i is one iff i < n and triple i is a trend |
| BloodPressureStrategy.TrendStartsSpec | src/main/java/com/alerts/strategy/BloodPressureStrategy.java:51-70 | the trend starts are strictly increasing, and i is one iff s[i], s[i+1], s[i+2] exist and form a trend |
| BloodPressureStrategy.TrendsUpToIndexwise | src/main/java/com/alerts/strategy/BloodPressureStrategy.java:51-70 | the first n triples give one alert per trend start among them, in order, the k-th at the third reading of the k-th trend triple |
| BloodPressureStrategy.TrendAlertsIndexwise | src/main/java/com/alerts/strategy/BloodPressureStrategy.java:51-70 | the trend loop emits exactly one alert per trend triple, in index order, the k-th timestamped at s[TrendStarts(s)[k] + 2]: no alert lost, added, duplicated or reordered |
| BloodPressureStrategy.StepOfTenIsNoTrend | src/main/java/com/alerts/strategy/BloodPressureStrategy.java:56-64 | a step of exactly 10 in either direction makes neither a rising nor a falling trend (strict comparison) |
| BloodPressureStrategy.NoCriticalNoAlerts | src/main/java/com/alerts/strategy/BloodPressureStrategy.java:20-39 | the critical-value loop raises nothing iff no reading is critical |
| BloodPressureStrategy.SortedOneTypeTrends | src/main/java/com/alerts/strategy/BloodPressureStrategy.java:41-42 | for sorted systolic readings of any number the systolic trend pass sees the list as given and the diastolic pass sees nothing |
| BloodPressureStrategy.RisingTripleTrend | src/main/java/com/alerts/strategy/BloodPressureStrategy.java:56-61 | a single rising triple gives exactly one trend alert, at its third reading |
| BloodPressureStrategy.RisingTriple | src/main/java/com/alerts/strategy/BloodPressureStrategy.java:19-43 | three sorted, non-critical, rising systolic readings give exactly one alert from the whole strategy: the trend alert |
| BloodPressureStrategy.TrendWithoutGap | src/main/java/com/alerts/strategy/BloodPressureStrategy.java:51-70 | 120, 131, 142 one second apart fire the trend alert: no minimum time gap |
| BloodPressureStrategy.CheckTrend | src/main/java/com/alerts/strategy/BloodPressureStrategy.java:45-72 | the triple loop over the filtered, sorted list emits exactly the type's trend alerts |
| BloodPressureStrategy.TrendAlerts | src/main/java/com/alerts/strategy/BloodPressureStrategy.java:51-70 | the trend alerts of one filtered, sorted list: one per trend triple, in order (TrendAlertsIndexwise, TrendAlertMembership) |
| BloodPressureStrategy.BloodPressureAlerts | src/main/java/com/alerts/strategy/BloodPressureStrategy.java:19-43 | the whole strategy: the critical alerts, then the systolic and the diastolic trend alerts of the type-filtered, timestamp-sorted lists |
| BloodPressureStrategy.CheckAlert | src/main/java/com/alerts/strategy/BloodPressureStrategy.java:19-43 | output is all critical alerts in list order, then the systolic trend alerts, then the diastolic ones |
| OxygenSaturationStrategy.FirstLowSpec | src/main/java/com/alerts/strategy/OxygenSaturationStrategy.java:32-39 | the low reading found is below 92 and no earlier reading is; none is found iff no reading is below 92 |
| OxygenSaturationStrategy.FirstDropFromSpec | src/main/java/com/alerts/strategy/OxygenSaturationStrategy.java:42-53 | from position k on, the drop found is a rapid drop and no earlier position from k is; none is found iff there is none |
| OxygenSaturationStrategy.FirstDropSpec | src/main/java/com/alerts/strategy/OxygenSaturationStrategy.java:42-53 | the first adjacent pair with gap <= 600000 ms and fall >= 5.0, or none iff no such pair exists |
| OxygenSaturationStrategy.LowScanIsFirstLow | src/main/java/com/alerts/strategy/OxygenSaturationStrategy.java:20-39 | the flag-guarded scan emits exactly one low alert, at the first low reading, or none |
| OxygenSaturationStrategy.FirstLowSnoc | src/main/java/com/alerts/strategy/OxygenSaturationStrategy.java:32 | a later reading changes the first low reading only when there was none before |
| OxygenSaturationStrategy.SaturationAlertsShape | src/main/java/com/alerts/strategy/OxygenSaturationStrategy.java:20-57 | at most two alerts; a low alert is at a scanned reading below 92; a drop alert is at the later reading of a rapid-drop pair; with two alerts the low alert comes first |
| OxygenSaturationStrategy.NoLowAfterDrop | src/main/java/com/alerts/strategy/OxygenSaturationStrategy.java:52 | after the break, a later low reading is not reported |
| OxygenSaturationStrategy.DropBoundariesInclusive | src/main/java/com/alerts/strategy/OxygenSaturationStrategy.java:43-46 | 100 followed by 93 exactly 10 minutes later fires the drop alert (both bounds inclusive) |
| OxygenSaturationStrategy.OnlyAdjacentPairs | src/main/java/com/alerts/strategy/OxygenSaturationStrategy.java:56 | a 6-point fall spread over two steps of 3 raises nothing: only adjacent pairs are compared |
| OxygenSaturationStrategy.OnlySaturationCounts | src/main/java/com/alerts/strategy/OxygenSaturationStrategy.java:25-26 | the output depends only on the "Saturation" records |
| OxygenSaturationStrategy.SaturationAlerts | src/main/java/com/alerts/strategy/OxygenSaturationStrategy.java:19-58 | the whole strategy on the sorted "Saturation" readings: the first low alert, then the first rapid-drop alert (SaturationAlertsShape, LowScanIsFirstLow) |
| OxygenSaturationStrategy.CheckAlert | src/main/java/com/alerts/strategy/OxygenSaturationStrategy.java:19-58 | the single pass with the flag, prevRecord and break emits exactly the specified alerts |
| HeartRateStrategy.RateAlertsAreOutOfRate | src/main/java/com/alerts/strategy/HeartRateStrategy.java:27-40 | one alert per reading outside [60, 100], in order: "Bradycardia Alert" below 60, "Tachycardia Alert" above 100, at its timestamp |
| HeartRateStrategy.RateAlertsAppend | src/main/java/com/alerts/strategy/HeartRateStrategy.java:27 | each reading is judged on its own: rate alerts distribute over concatenation |
| HeartRateStrategy.Intervals | src/main/java/com/alerts/strategy/HeartRateStrategy.java:82-85 | a window of n readings has n - 1 intervals |
| HeartRateStrategy.Irregular | src/main/java/com/alerts/strategy/HeartRateStrategy.java:86-88 | some interval deviates from the mean interval: by at least 20% of a positive mean, by anything for a mean of 0, never for a negative mean |
| HeartRateStrategy.IsIrregular | src/main/java/com/alerts/strategy/HeartRateStrategy.java:81-89 | the interval-array loop and its mean test decide exactly the irregularity predicate (a mean of 0 flags any non-zero interval, as x/0 is infinite and 0/0 is NaN) |
| HeartRateStrategy.EvenSpacingIsRegular | src/main/java/com/alerts/strategy/HeartRateStrategy.java:86-88 | evenly spaced readings are never irregular |
| HeartRateStrategy.SortedZeroMeanIsRegular | src/main/java/com/alerts/strategy/HeartRateStrategy.java:86-88 | in a sorted window a mean interval of 0 means all five timestamps are equal: not irregular |
| HeartRateStrategy.AlternatingIntervalsAreIrregular | src/main/java/com/alerts/strategy/HeartRateStrategy.java:86-88 | intervals 1200, 800, 1200, 800 are irregular |
| HeartRateStrategy.SumConstant | src/main/java/com/alerts/strategy/HeartRateStrategy.java:86 | the sum of n equal intervals is n times the interval |
| HeartRateStrategy.MeanOfConstant | src/main/java/com/alerts/strategy/HeartRateStrategy.java:86 | the mean of equal intervals is that interval |
| HeartRateStrategy.SumNonNegative | src/main/java/com/alerts/strategy/HeartRateStrategy.java:86 | non-negative intervals (those of a sorted window) have a non-negative sum |
| HeartRateStrategy.SumNonNegZero | src/main/java/com/alerts/strategy/HeartRateStrategy.java:86 | non-negative intervals summing to 0 are all 0 |
| HeartRateStrategy.FirstPeakFromSpec | src/main/java/com/alerts/strategy/HeartRateStrategy.java:64-75 | from position i on, the peak found exceeds twice the mean of the 10 values before it and no earlier position from i does; none iff there is none |
| HeartRateStrategy.FirstPeakSpec | src/main/java/com/alerts/strategy/HeartRateStrategy.java:64-75 | the first position >= 10 whose value exceeds 2.0 times the mean of the 10 preceding values, or none iff no such position |
| HeartRateStrategy.ShortSeriesHasNoPeak | src/main/java/com/alerts/strategy/HeartRateStrategy.java:55 | 10 or fewer ECG readings give no peak alert |
| HeartRateStrategy.SlideWindow | src/main/java/com/alerts/strategy/HeartRateStrategy.java:76-78 | subtracting the oldest value and adding the newest moves the window sum one position on |
| HeartRateStrategy.SumValuesCons | src/main/java/com/alerts/strategy/HeartRateStrategy.java:58-61 | the window sum of x then xs is x's value plus the sum of xs |
| HeartRateStrategy.SumValuesConstant | src/main/java/com/alerts/strategy/HeartRateStrategy.java:58-61 | n equal values sum to n times the value |
| HeartRateStrategy.PeakAfterTenOnes | src/main/java/com/alerts/strategy/HeartRateStrategy.java:64-75 | ten readings of 1.0 followed by 3.0 fire exactly one peak alert, on the 11th |
| HeartRateStrategy.NoEcgNoAlerts | src/main/java/com/alerts/strategy/HeartRateStrategy.java:22-23 | without "ECG" records (for example "HeartRate" ones) nothing is raised |
| HeartRateStrategy.CheckRate | src/main/java/com/alerts/strategy/HeartRateStrategy.java:27-40 | the rate loop emits exactly the rate alerts |
| HeartRateStrategy.CheckRhythm | src/main/java/com/alerts/strategy/HeartRateStrategy.java:41-53 | with at least 5 readings the last five are tested; at most one alert, at the newest of them |
| HeartRateStrategy.CheckPeak | src/main/java/com/alerts/strategy/HeartRateStrategy.java:57-79 | with the invariant windowSum = sum of positions i - 10 .. i - 1, the sliding loop emits exactly the first peak alert, or none |
| HeartRateStrategy.HeartRateAlerts | src/main/java/com/alerts/strategy/HeartRateStrategy.java:20-80 | the whole strategy on the sorted "ECG" readings: rate alerts, then the rhythm alert, then the peak alert |
| HeartRateStrategy.CheckAlert | src/main/java/com/alerts/strategy/HeartRateStrategy.java:20-80 | output is the rate alerts, then the rhythm alert, then the peak alert |
| HypotensiveHypoxemiaStrategy.LastOfTypeSpec | src/main/java/com/alerts/strategy/HypotensiveHypoxemiaStrategy.java:19-27 | the kept record is the last one of its type in list order, and none is kept iff the type is absent |
| HypotensiveHypoxemiaStrategy.LastOfTypeUnique | src/main/java/com/alerts/strategy/HypotensiveHypoxemiaStrategy.java:19-27 | there is only one last record of a type |
| HypotensiveHypoxemiaStrategy.LaterEntryOverwrites | src/main/java/com/alerts/strategy/HypotensiveHypoxemiaStrategy.java:20-25 | a record appended later overwrites the kept one regardless of timestamps |
| HypotensiveHypoxemiaStrategy.FiresIff | src/main/java/com/alerts/strategy/HypotensiveHypoxemiaStrategy.java:28-34 | at most one alert; it fires iff both types exist and the last systolic is < 90 and the last saturation < 92, with no proximity check, and then at the later of their two timestamps |
| HypotensiveHypoxemiaStrategy.NeedsBothSignals | src/main/java/com/alerts/strategy/HypotensiveHypoxemiaStrategy.java:16-29 | without a saturation record nothing fires |
| HypotensiveHypoxemiaStrategy.BoundariesDoNotFire | src/main/java/com/alerts/strategy/HypotensiveHypoxemiaStrategy.java:29 | a last systolic of exactly 90 or a last saturation of exactly 92 does not fire |
| HypotensiveHypoxemiaStrategy.OverwriteExample | src/main/java/com/alerts/strategy/HypotensiveHypoxemiaStrategy.java:19-34 | systolic 85 with saturation 90 fires at the later timestamp; a later-listed systolic 95 with an older timestamp cancels it |
| HypotensiveHypoxemiaStrategy.HypotensiveHypoxemiaAlerts | src/main/java/com/alerts/strategy/HypotensiveHypoxemiaStrategy.java:15-37 | the combined alert from the last systolic and the last saturation record in list order (FiresIff) |
| HypotensiveHypoxemiaStrategy.CheckAlert | src/main/java/com/alerts/strategy/HypotensiveHypoxemiaStrategy.java:15-37 | the overwrite loop and the final test emit exactly the specified alert |
| ManualAlertStrategy.FirstQualifyingSpec | src/main/java/com/alerts/strategy/ManualAlertStrategy.java:18-21 | the record found is "Alert"-typed with now - timestamp <= 86400000 and no earlier one is; none iff no record qualifies |
| ManualAlertStrategy.FirstQualifyingSnoc | src/main/java/com/alerts/strategy/ManualAlertStrategy.java:18-29 | a later record matters only when no earlier one qualified (the alertCreated flag) |
| ManualAlertStrategy.ManualAlertsSpec | src/main/java/com/alerts/strategy/ManualAlertStrategy.java:12-31 | at most one "Triggered Alert"; one iff some record qualifies; it carries the first qualifying record's timestamp |
| ManualAlertStrategy.ValueNeverInspected | src/main/java/com/alerts/strategy/ManualAlertStrategy.java:18-30 | the measurement values never change the output |
| ManualAlertStrategy.SameFirstQualifying | src/main/java/com/alerts/strategy/ManualAlertStrategy.java:19-20 | lists with equal types and timestamps have the same first qualifying record |
| ManualAlertStrategy.FutureTimestampQualifies | src/main/java/com/alerts/strategy/ManualAlertStrategy.java:19 | the lookback is one-sided: an "Alert" record after now qualifies |
| ManualAlertStrategy.OldOrOtherRecordsRaiseNothing | src/main/java/com/alerts/strategy/ManualAlertStrategy.java:19-20 | records older than 24 hours or not "Alert"-typed raise nothing |
| ManualAlertStrategy.ManualAlerts | src/main/java/com/alerts/strategy/ManualAlertStrategy.java:12-31 | one "Triggered Alert" at the first qualifying record, or none (ManualAlertsSpec) |
| ManualAlertStrategy.CheckAlert | src/main/java/com/alerts/strategy/ManualAlertStrategy.java:12-31 | the flag-guarded loop emits exactly the specified alert |
| AlertGenerator.EmptyWindowRaisesNothing | src/main/java/com/alerts/AlertGenerator.java:48-50 | the early return changes nothing: on an empty window the strategies would raise nothing either |
| AlertGenerator.StaleRecordsRaiseNothing | src/main/java/com/alerts/AlertGenerator.java:44-50 | a patient without records in [now - 86400000, now] raises nothing |
| AlertGenerator.WindowNone | src/main/java/com/alerts/AlertGenerator.java:46 | records all outside the range give an empty window |
| AlertGenerator.OutsideRecordsIgnored | src/main/java/com/alerts/AlertGenerator.java:46-57 | records outside the window, wherever they are in the list, never influence any alert |
| AlertGenerator.ManualWindowTest | src/main/java/com/alerts/AlertGenerator.java:44-57 | a window record passes the manual strategy's test at its own clock reading manualNow iff it is "Alert"-typed and no older than manualNow - 86400000; while manualNow <= now only the type decides |
| AlertGenerator.ManualEdgeMissed | src/main/java/com/alerts/strategy/ManualAlertStrategy.java:14-19 | once the manual strategy's clock reads later than evaluateData's, an "Alert" record at the window's lower edge is handed over but raises no alert, where a single clock reading would raise one |
| AlertGenerator.StrategyAlerts | src/main/java/com/alerts/AlertGenerator.java:52-57 | the five strategies' outputs on one window, in their fixed order, the manual one at its own clock reading |
| AlertGenerator.EvaluatedAlerts | src/main/java/com/alerts/AlertGenerator.java:42-58 | no alerts for an empty 24-hour window, otherwise the strategies' outputs on it |
| AlertGenerator.EvaluateData | src/main/java/com/alerts/AlertGenerator.java:42-58 | the window is the patient's records in [now - 86400000, now]; empty gives no alerts; otherwise the five strategies' outputs on the same list, in their fixed order, the manual strategy reading the clock again |
| WebSocketClient.SplitAll | src/main/java/com/data_management/WebSocketClient.java:62 | splitting always yields at least one piece |
| WebSocketClient.SplitAllJoin | src/main/java/com/data_management/WebSocketClient.java:62 | the pieces contain no comma and joined with commas give back the message |
| WebSocketClient.SplitAllField | src/main/java/com/data_management/WebSocketClient.java:62 | a comma-free field followed by a comma is split off as the first piece |
| WebSocketClient.SplitAllNoSeparator | src/main/java/com/data_management/WebSocketClient.java:62 | a comma-free string is one piece |
| WebSocketClient.StripTrailingEmpty | src/main/java/com/data_management/WebSocketClient.java:62 | split's trailing-empty removal keeps a prefix that does not end in an empty piece, and drops only empty pieces |
| WebSocketClient.JavaSplit | src/main/java/com/data_management/WebSocketClient.java:62 | no piece of `split(",")` holds a comma, and when the message has a comma the last piece is non-empty |
| WebSocketClient.Trim | src/main/java/com/data_management/WebSocketClient.java:67-70 | trim never lengthens a field and leaves no blank (<= U+0020) at either end |
| WebSocketClient.TrimNoSeparator | src/main/java/com/data_management/WebSocketClient.java:69 | trimming a comma-free field keeps it comma-free |
| WebSocketClient.TrimBounds | src/main/java/com/data_management/WebSocketClient.java:67-70 | trim keeps a slice with no blank (<= U+0020) at either end and drops only blanks before and after it |
| WebSocketClient.TrimStartSpec | src/main/java/com/data_management/WebSocketClient.java:67-70 | leading trimming drops exactly a prefix of blanks |
| WebSocketClient.TrimEndSpec | src/main/java/com/data_management/WebSocketClient.java:67-70 | trailing trimming drops exactly a suffix of blanks |
| WebSocketClient.TrimUnchanged | src/main/java/com/data_management/WebSocketClient.java:67-70 | a field without blanks at its ends is not changed by trim |
| WebSocketClient.FieldsSplit | src/main/java/com/data_management/WebSocketClient.java:62 | four comma-free fields joined by commas split back into those four fields |
| WebSocketClient.FourFields | src/main/java/com/data_management/WebSocketClient.java:62-63 | when the last field is non-empty, Java's split keeps all four and the length test passes |
| WebSocketClient.IntToStringNoSeparator | src/main/java/com/data_management/WebSocketClient.java:67-68 | a printed integer has no comma and no blank at its ends |
| WebSocketClient.MessageRoundTrip | src/main/java/com/data_management/WebSocketClient.java:61-75 | an int id, a long timestamp, a comma-free label and a parseable data field give exactly one store call with those values, in the order (patientId, data, label, timestamp), the label only trimmed |
| WebSocketClient.TrailingSeparatorRejected | src/main/java/com/data_management/WebSocketClient.java:62-65 | a message whose fourth field is empty splits into three parts: "Invalid message", nothing stored |
| WebSocketClient.TrailingCommaExample | src/main/java/com/data_management/WebSocketClient.java:62-65 | "1,2,ECG," is rejected as an invalid message |
| WebSocketClient.BadNumberRejected | src/main/java/com/data_management/WebSocketClient.java:66-74 | a non-numeric id, timestamp or data field gives "Invalid number format in message: " plus the message, before any store call |
| WebSocketClient.ParseMessage | src/main/java/com/data_management/WebSocketClient.java:61-75 | not four pieces gives "Invalid message"; four pieces with a number that does not parse give "Invalid number format in message: " plus the message; a store call holds the int parsed from the trimmed first piece, the long parsed from the trimmed second, the trimmed third piece as a comma-free label and the parsed fourth field |
| WebSocketClient.PaddedMessage | src/main/java/com/data_management/WebSocketClient.java:62-71 | any four comma-free fields, the last non-empty, whose trimmed numbers parse are stored as the parsed values and the trimmed label: blanks, a '+' sign and leading zeros are accepted |
| WebSocketClient.OnMessage | src/main/java/com/data_management/WebSocketClient.java:42-49 | at most one store call, made exactly when the message parses, and then the parsed one |
| WebSocketClient.ReceivedAppend | src/main/java/com/data_management/WebSocketClient.java:42-49 | messages are handled independently, in arrival order |
| WebSocketClient.ReceivedCount | src/main/java/com/data_management/WebSocketClient.java:42-49 | exactly one store call per valid message, none per invalid one: errors are swallowed |
| WebSocketClient.ReceiveAll | src/main/java/com/data_management/WebSocketClient.java:42-49 | calling onMessage on each message stores exactly the calls of the valid messages, in order |
| FileDataReader.DigitRunConcat | src/main/java/com/data_management/FileDataReader.java:44 | a `\d+` group stops exactly where its digits end |
| FileDataReader.WordRunConcat | src/main/java/com/data_management/FileDataReader.java:44 | a `\w+` group stops exactly where its word characters end |
| FileDataReader.PointIndexOfShape | src/main/java/com/data_management/FileDataReader.java:44 | a data group of shape `[-+]?\d*\.?\d+` has at most one point, placed so the value is well defined |
| FileDataReader.DataValue | src/main/java/com/data_management/FileDataReader.java:54 | the value read from a data group is <= 0 after a leading '-' and >= 0 otherwise |
| FileDataReader.Magnitude | src/main/java/com/data_management/FileDataReader.java:54 | an unsigned data group reads as a non-negative value |
| FileDataReader.DataValueOfInteger | src/main/java/com/data_management/FileDataReader.java:54 | a data group of digits reads as their value, and with a leading '-' as its negation |
| FileDataReader.DataValueOfDecimal | src/main/java/com/data_management/FileDataReader.java:54 | "a.c" reads as a plus c divided by 10 to the number of digits of c, and "-a.c" as its negation |
| FileDataReader.DecimalParts | src/main/java/com/data_management/FileDataReader.java:44 | "a.c" with digit runs a and c (c non-empty) has the unsigned data shape, and its first point sits after a |
| FileDataReader.Match | src/main/java/com/data_management/FileDataReader.java:43-49 | a whole-line match returns a data group of the accepted numeric shape |
| FileDataReader.MatchIff | src/main/java/com/data_management/FileDataReader.java:43-49 | a line matches with groups g iff the id and timestamp groups are non-empty digit runs, the label a non-empty word run, the data of the accepted shape, and the line is exactly the literals and the groups with nothing before or after |
| FileDataReader.MatchSound | src/main/java/com/data_management/FileDataReader.java:43-49 | a match returns groups of those shapes that spell out the whole line: "Patient ID: 007, ..." matches with id group "007" |
| FileDataReader.MatchComplete | src/main/java/com/data_management/FileDataReader.java:43-49 | every line spelled out by groups of those shapes matches, with exactly those groups |
| FileDataReader.DigitRunDigits | src/main/java/com/data_management/FileDataReader.java:44 | the digit run taken for a `\d+` group holds only digits |
| FileDataReader.WordRunWords | src/main/java/com/data_management/FileDataReader.java:44 | the word run taken for a `\w+` group holds only word characters |
| FileDataReader.MatchIdSound | src/main/java/com/data_management/FileDataReader.java:44 | after "Patient ID: " the id stage accepts a digit run, ", Timestamp: " and what the next stage accepts, and nothing else |
| FileDataReader.MatchTimestampSound | src/main/java/com/data_management/FileDataReader.java:44 | the timestamp stage accepts a digit run, ", Label: " and what the label stage accepts, and nothing else |
| FileDataReader.MatchLabelSound | src/main/java/com/data_management/FileDataReader.java:44 | the label stage accepts a word run, ", Data: " and a data group of the accepted shape, and nothing else |
| FileDataReader.MatchFormat | src/main/java/com/data_management/FileDataReader.java:43-49 | a printed line with a non-negative id and timestamp and a word label matches iff its data has the accepted shape, and then the groups are the printed fields |
| FileDataReader.MatchIdStep | src/main/java/com/data_management/FileDataReader.java:44 | the id group is the whole digit run before ", Timestamp: " |
| FileDataReader.MatchTimestampStep | src/main/java/com/data_management/FileDataReader.java:44 | the timestamp group is the whole digit run before ", Label: " |
| FileDataReader.MatchLabelStep | src/main/java/com/data_management/FileDataReader.java:44 | the label group is the whole word run before ", Data: "; the rest is the data group |
| FileOutputStrategy.FormatLine | src/main/java/com/cardio_generator/outputs/FileOutputStrategy.java:54-55 | the printed line, without the line separator; FormatThenParse reads it back |
| FileDataReader.FormatLineGroups | src/main/java/com/cardio_generator/outputs/FileOutputStrategy.java:54-55 | the printed line is the reader's pattern literals joined with the printed id, timestamp, label and data |
| FileDataReader.FormatThenParse | src/main/java/com/cardio_generator/outputs/FileOutputStrategy.java:54-55 | a line printed from an id in [0, INT_MAX], a timestamp in [0, LONG_MAX], a word label and shaped data is stored as exactly those values |
| FileDataReader.NonNumericDataSkipped | src/main/java/com/data_management/FileDataReader.java:44-49 | a data field outside the numeric shape makes the line skipped silently |
| FileDataReader.TriggeredIsNotData | src/main/java/com/cardio_generator/generators/AlertGenerator.java:40 | "triggered" is not of the numeric shape |
| FileDataReader.OverflowingIdFails | src/main/java/com/data_management/FileDataReader.java:51-59 | an id above INT_MAX gives "Error parsing line: " plus the line and no store call |
| FileDataReader.OverflowingTimestampFails | src/main/java/com/data_management/FileDataReader.java:52-59 | a timestamp above LONG_MAX gives the error line and no store call |
| FileDataReader.NegativeIdSkipped | src/main/java/com/data_management/FileDataReader.java:44 | a negative id is printed with '-', which `\d+` refuses: skipped |
| FileDataReader.NegativeIdUnmatched | src/main/java/com/data_management/FileDataReader.java:44-49 | a line whose id starts with '-' does not match |
| FileDataReader.NonWordLabelSkipped | src/main/java/com/data_management/FileDataReader.java:44 | a label containing a space or punctuation other than ',' makes the line skipped |
| FileDataReader.NonWordLabelUnmatched | src/main/java/com/data_management/FileDataReader.java:44 | a word run followed by a non-word character other than ',' cannot reach ", Data: " |
| FileDataReader.ParseLine | src/main/java/com/data_management/FileDataReader.java:47-60 | a line is skipped iff it does not match; a failed line's message is "Error parsing line: " plus the line; a stored call has an id in [0, INT_MAX], a timestamp in [0, LONG_MAX] and a non-empty word label |
| FileDataReader.ParseLineValues | src/main/java/com/data_management/FileDataReader.java:48-59 | any matching line, leading zeros included, is stored as the digit values of its id and timestamp groups, its label and its data value when the id is at most INT_MAX and the timestamp at most LONG_MAX, and is the error line otherwise |
| FileDataReader.StoredCallsAppend | src/main/java/com/data_management/FileDataReader.java:47-61 | lines are processed independently: the calls of a + b are those of a followed by those of b, so a bad line never stops later ones |
| FileDataReader.ErrorLinesAppend | src/main/java/com/data_management/FileDataReader.java:57-59 | error messages come one per failing line, in file order |
| FileDataReader.StoredPair | src/main/java/com/data_management/FileDataReader.java:47-61 | two lines give the first line's call, then the second's |
| FileDataReader.StoredCallsSingle | src/main/java/com/data_management/FileDataReader.java:47-61 | one line gives exactly its own call, if any |
| FileDataReader.TwoLinesTwoRecords | src/main/java/com/data_management/FileDataReader.java:47-61 | two well-formed printed lines give two store calls, in file order |
| FileDataReader.NextLine | src/main/java/com/data_management/FileDataReader.java:47-61 | one more line adds that line's own call and error message, if any |
| FileDataReader.ProcessFile | src/main/java/com/data_management/FileDataReader.java:42-62 | the line loop makes exactly one store call per accepted line and one error message per failed line, in file order |

## Left out

- Alert factories, alert subclasses and decorators: each factory call becomes an `Alert` value appended to the output. The factories' console printing is not modelled. Decorators are never constructed by the modelled code.
- The simulator `com.cardio_generator.generators.AlertGenerator`: it is random and uses floating point. Only its "triggered"/"resolved" data words appear, in `TriggeredIsNotData`.
- `FileOutputStrategy`: directory creation, file appends and the path cache are I/O. Only the printed line is modelled.
- `WebSocketClient` connection lifecycle, `FileDataReader.readData`, file reading and console output: network and file I/O. The readers return the store calls and error messages they would make.
- Patient.java and DataStorage.java are not part of this model. Only the inclusive, order-keeping range query (`Records.GetRecords`) and the store call are modelled. The storage singleton and thread safety are concurrency concerns.
- Storage exceptions: a `RuntimeException` thrown by `addPatientData` propagates out of `onMessage` (WebSocketClient.java:71) and out of the line lambda of `processFile` (FileDataReader.java:56), ending the file's processing. The model has no failing store, so this path is not represented.
- IEEE doubles: measurement values are exact reals. Rounding in `windowSum`, the average and subtraction is ignored, so results can differ from Java at rounding boundaries.
- NaN or infinite measurement values are not modelled. The hypotensive rule's NaN "absent" marker is an `Option`.
- `Double.parseDouble` in the socket client is a parameter: any partial function from strings to reals.
- The file reader's data group is given its exact decimal value (`DataValue`), not the nearest double.
- Java's `\d` and `\w` are ASCII-only by default, and so is the model. Java's `Integer.parseInt` also accepts non-ASCII Unicode digits; the model accepts only ASCII digits.
- 64-bit wrap-around is not modelled: integers are unbounded. The `long` subtractions are `currentTime -(24*60*60*1000)` (AlertGenerator.java:45), `currentTime - record.getTimestamp()` (ManualAlertStrategy.java:19), `record.getTimestamp() - prevRecord.getTimestamp()` (OxygenSaturationStrategy.java:43) and the interval `window.get(i).getTimestamp() - window.get(i-1).getTimestamp()` (HeartRateStrategy.java:84). They wrap only for timestamps near the `long` limits.
- The clock: `System.currentTimeMillis()` is a parameter. `evaluateData` reads it as `now` (AlertGenerator.java:44) and `ManualAlertStrategy.checkAlert` reads it again as `manualNow` (ManualAlertStrategy.java:14). The model does not relate the two readings; `ManualWindowTest` and `ManualEdgeMissed` show what the gap changes.
- HeartRateStrategy.CheckAlert: Java's single `checkAlert` is split into `CheckRate`, `CheckRhythm` and `CheckPeak`. The sliding-window sum is kept as one accumulator, exactly as in the source.
- WebSocketClient.ReceiveAll: the message library's callback dispatch is modelled as a loop calling the message handler on each message in arrival order.
- The `AlertStrategy`, `OutputStrategy` and `PatientDataGenerator` interfaces and `Main` only declare or dispatch. The strategies are plain modules.
