/** JSON values the order-book mirror copies from messages without interpreting them. */
module JsonValues {

  /** An optional value; `None` stands for a key that is absent from a JSON object. */
  datatype Option<+T> = None | Some(value: T) {

    /** The carried value, or `default` when the key is absent (Python's `dict.get(key, default)`). */
    function GetOr(default: T): T {
      match this
      case Some(v) => v
      case None => default
    }
  }

  /** A numeric field of a price level: a JSON number, or JSON `null`. */
  datatype Value = Null | Num(n: real)

  /** Opaque JSON text: period statistics and any key the mirror stores but never inspects. */
  type Blob = string
}
