/** Small shared datatypes and the time scale used across the models. */
module Common {
  datatype Option<+T> = None | Some(value: T) {
    /** The value, or a default when there is none. */
    function GetOr(default: T): T {
      if Some? then value else default
    }
  }

  /** Times are whole microseconds, the resolution of the datetimes the system stores. */
  const SECOND: int := 1_000_000

  function Min(a: int, b: int): int { if a <= b then a else b }

  function Max(a: int, b: int): int { if a >= b then a else b }
}
