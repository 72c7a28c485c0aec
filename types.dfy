/** Value types shared by the signal worker (V2X.py) and the decision worker (controller.py). */
module Types {

  /** The conventional Some/None datatype, used for "a message may or may not be waiting". */
  datatype Option<+T> = None | Some(value: T) {
    function GetOr(default: T): T {
      match this
      case Some(v) => v
      case None => default
    }
  }

  /** The traffic-signal status strings "RED", "GREEN", "YELLOW" and "UNKNOWN" that the signal
      worker puts on its queue and the decision worker caches. The type has exactly these four
      values, so "the result is always one of the four statuses" holds by typing. */
  datatype Status = Red | Green | Yellow | Unknown
}
