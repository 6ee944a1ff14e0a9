/**
 * FileOutputStrategy.output, reduced to the line it prints: the producer
 * side of the file reader's line grammar.
 */
module FileOutputStrategy {
  import opened Decimal

  const ID_PREFIX: string := "Patient ID: "
  const TIMESTAMP_PREFIX: string := ", Timestamp: "
  const LABEL_PREFIX: string := ", Label: "
  const DATA_PREFIX: string := ", Data: "

  /** `"Patient ID: %d, Timestamp: %d, Label: %s, Data: %s"`, without the line separator. */
  function FormatLine(patientId: int, timestamp: int, recordLabel: string, data: string): string
  {
    ID_PREFIX + IntToString(patientId) + TIMESTAMP_PREFIX + IntToString(timestamp)
    + LABEL_PREFIX + recordLabel + DATA_PREFIX + data
  }
}
