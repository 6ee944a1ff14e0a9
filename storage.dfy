/**
 * The one storage operation the readers use: DataStorage.addPatientData.
 * The storage itself is not modelled; a reader's effect is the sequence of
 * calls it makes, with the arguments in the order the method declares them.
 */
module DataStorage {
  datatype StoreCall = StoreCall(patientId: int, data: real, recordLabel: string, timestamp: int)
}
