/** Failure-carrying values shared by every script model. */
module Wrappers {

  datatype Option<+T> = None | Some(value: T) {
    /** dict.get(key, default): the value when present, the default otherwise. */
    function GetOr(default: T): T {
      match this
      case Some(v) => v
      case None => default
    }
  }

  /** The Python exceptions the scripts can raise on their inputs. */
  datatype Error =
    | KeyError(key: string)          // a required dict key is missing
    | ValueError(reason: string)     // float()/int() on a bad token, or a failed tuple unpacking
    | FileNotFound(name: string)     // open()/os.remove() on a file that does not exist

  datatype Result<+T> = Ok(value: T) | Err(error: Error)
}
