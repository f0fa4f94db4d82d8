/** The PHP scalar values that rows and column options carry. */
module Php {

  datatype Value = Null | Bool(b: bool) | Int(i: int) | Str(s: string)

  /** PHP's `empty()`: null, false, 0, "" and "0" are empty; every other scalar is not. */
  predicate Empty(v: Value)
  {
    match v
    case Null => true
    case Bool(b) => !b
    case Int(i) => i == 0
    case Str(s) => s == "" || s == "0"
  }
}
