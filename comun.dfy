/** Small shared definitions. */
module Comun {

  /** A value that may be absent: JavaScript's `null` / `undefined`. */
  datatype Option<+T> = None | Some(value: T) {

    /** The wrapped value, or `default` when absent (JavaScript's `x || default` on arrays). */
    function GetOr(default: T): T {
      match this
      case Some(v) => v
      case None => default
    }
  }

  /** JavaScript's `a || b` where the only falsy value of the type is `vacio`. */
  function SiVacio<T(==)>(a: T, vacio: T, b: T): (r: T)
    ensures a != vacio ==> r == a
    ensures a == vacio ==> r == b
  {
    if a != vacio then a else b
  }
}
