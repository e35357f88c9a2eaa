/** Types shared by several components. */
module Wrappers {

  datatype Option<T> = None | Some(value: T) {
    function GetOr(default: T): T { if Some? then value else default }
  }

  /** How an operation that reports an error ended. */
  datatype Outcome = Done | Failed
}
