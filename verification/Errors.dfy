/** Errors that travel through the collector, and the PDH codes its decisions depend on. */
module Errors {

  datatype Option<+T> = None | Some(value: T)

  datatype Result<+T> = Ok(value: T) | Err(error: Error)

  /** A PDH error carries the 32-bit status of the failed call; every other error is a Go sentinel. */
  datatype Error =
    | PdhError(code: nat)
    | UninitializedQuery
    | BufferLimitReached
    | BadCounterPath
    | NoObjectsConfigured

  const ERROR_SUCCESS: nat := 0
  const ERROR_FAILURE: nat := 1
  const PDH_CSTATUS_NO_INSTANCE: nat := 0x800007D1
  const PDH_MORE_DATA: nat := 0x800007D2
  const PDH_NO_DATA: nat := 0x800007D5
  const PDH_CALC_NEGATIVE_DENOMINATOR: nat := 0x800007D6
  const PDH_CALC_NEGATIVE_VALUE: nat := 0x800007D8
  const PDH_CSTATUS_INVALID_DATA: nat := 0xC0000BBA
  const PDH_INVALID_DATA: nat := 0xC0000BC6

  /** Data errors that make the collector skip one metric instead of abandoning the host. */
  predicate IsKnownCounterDataError(e: Error) {
    e.PdhError? &&
    e.code in {
      PDH_INVALID_DATA, PDH_CALC_NEGATIVE_DENOMINATOR, PDH_CALC_NEGATIVE_VALUE,
      PDH_CSTATUS_INVALID_DATA, PDH_CSTATUS_NO_INSTANCE, PDH_NO_DATA
    }
  }

  /** The configured list of error names to ignore; a code without a name looks up the empty name. */
  function CheckError(ignored: seq<string>, names: map<nat, string>, e: Error): Option<Error> {
    if e.PdhError? && (if e.code in names then names[e.code] else "") in ignored then None
    else Some(e)
  }
}
