/** The length of a session and the correction horizon, in whole seconds and on the nanosecond clock. */
module SessionUnits {

  const SECOND: int := 1_000_000_000
  const SESSION_SECONDS: int := 57_600
  const CORRECTION_SECONDS: int := 960
  const CORRECTION_HORIZON: int := CORRECTION_SECONDS * SECOND
  const MAXIMUM_TAIL_RECORDS: int := 961
}
