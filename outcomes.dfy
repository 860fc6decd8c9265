/** Option and Result, used for absent JSON fields and for the scripts' error exits. */
module Outcomes {

  datatype Option<+T> = None | Some(value: T) {
    /** `x || default` on a JSON field that is either absent or holds a value. */
    function GetOr(default: T): T {
      if Some? then value else default
    }
  }

  datatype Result<+T, +E> = Ok(value: T) | Err(error: E)
}
