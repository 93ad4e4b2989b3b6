/** Values shared by the whole model: optional values, the two error codes the
    core raises towards the filesystem binding, results, bytes and timestamps. */
module Common {

  datatype Option<+T> = None | Some(value: T) {
    /** The value, or `default` when there is none (a `KeyError` caught and defaulted). */
    function GetOr(default: T): T {
      if Some? then value else default
    }
  }

  /** The errno values the core raises as `FuseOSError`. */
  datatype Errno = EIO | ENOENT

  /** A value, or the errno the operation raised. */
  datatype Result<+T> = Ok(value: T) | Err(errno: Errno)

  type byte = bv8

  /** A point in time in epoch seconds. How a header or listing cell is parsed
      into one, and the clock that supplies the current time, are not modelled. */
  type Stamp = int

  function Min(a: int, b: int): int {
    if a <= b then a else b
  }
}
