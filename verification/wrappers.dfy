/** Optional values. `None` stands for the NaN that pandas and NumPy use as a
    "missing value" sentinel; making it a constructor keeps every comparison
    against a missing value explicit. */
module Wrappers {

  datatype Option<+T> = None | Some(value: T) {

    /** The reading, or `default` when it is NaN. */
    function GetOr(default: T): T {
      match this
      case Some(v) => v
      case None => default
    }
  }
}
