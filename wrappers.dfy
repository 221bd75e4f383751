/** The outcome of parsing a table cell's text: `float(text)` either yields a value or raises ValueError. */
module Wrappers {
  datatype Option<+T> = None | Some(value: T) {
    /** The parsed value, or `default` when parsing failed. */
    function GetOr(default: T): T {
      match this
      case Some(v) => v
      case None => default
    }
  }
}
