/**
 * rDSN's `error_code`: a registered error name compared by value.
 * Only ERR_OK is singled out by the modelled code.
 */
module ErrorCodes {

  datatype ErrorCode = ErrorCode(name: string)

  const ErrOk: ErrorCode := ErrorCode("ERR_OK")
}
