/** Option and Result, the shapes the model uses for JavaScript's
    `undefined`/`NaN` and for the popup's rejected inputs. */
module Wrappers {

  datatype Option<+T> = None | Some(value: T) {
    function GetOr(default: T): T {
      match this
      case Some(v) => v
      case None => default
    }
  }

  datatype Result<+R, +E> = Ok(value: R) | Err(error: E)
}
