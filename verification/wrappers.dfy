/**
 Failure-carrying values. A call into the wallet, the RPC endpoint or the
 browser storage is modelled by one of these values instead of being run:
 `Ok(v)` is a resolved promise, `Err(m)` a rejected one with message `m`.
 */
module Wrappers {

  datatype Option<+T> = None | Some(value: T) {

    /** The wrapped value, or `default` when there is none. */
    function GetOr(default: T): T {
      match this
      case Some(v) => v
      case None => default
    }
  }

  /** A promise outcome: a value, or an error whose `message` is a string. */
  datatype Result<+T> = Ok(value: T) | Err(message: string) {

    /** The value, or `default` when the promise was rejected (`.catch(() => default)`). */
    function GetOr(default: T): T {
      match this
      case Ok(v) => v
      case Err(_) => default
    }
  }
}
