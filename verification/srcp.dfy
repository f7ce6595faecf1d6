/** Answers of the server to a client's command. */
module Srcp {
  const SRCP_OK: int := 200
  const SRCP_WRONGVALUE: int := 412
  const SRCP_TEMPORARILYPROHIBITED: int := 413
  const SRCP_DEVICELOCKED: int := 414
  const SRCP_NODATA: int := 416
  const SRCP_UNSUPPORTEDDEVICEGROUP: int := 422
}
