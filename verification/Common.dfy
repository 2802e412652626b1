/** Types shared by every model in this project. */
module Common {

  datatype Option<+T> = None | Some(value: T) {
    function GetOr(default: T): T {
      if Some? then value else default
    }
  }

  /** An absent value counts as the default: JavaScript's `a ?? b` and SQL's COALESCE(a, b). */
  function Coalesce<T>(first: Option<T>, second: Option<T>): Option<T> {
    if first.Some? then first else second
  }

  type Byte = bv8

  type Bytes = seq<Byte>

  // Number.MAX_SAFE_INTEGER
  const MAX_SAFE_INTEGER: int := 0x1F_FFFF_FFFF_FFFF

  predicate IsSafeInteger(x: int) {
    -MAX_SAFE_INTEGER <= x <= MAX_SAFE_INTEGER
  }
}
