/**
 * Failure-compatible wrappers used throughout the model: `Option` for the
 * source's `None`-or-value fields and `Result` for operations that raise.
 */
module Base {

  datatype Option<+T> = None | Some(value: T) {
    function GetOr(default: T): T {
      match this
      case Some(v) => v
      case None => default
    }
  }

  /** Python exceptions the core raises; `msg` is the exception text. */
  datatype Error =
    | ValueError(msg: string)
    | RuntimeError(msg: string)
    | FileNotFoundError(msg: string)
    | KeyError(msg: string)
    | ImportError(msg: string)

  datatype Result<+R> = Ok(value: R) | Err(error: Error) {
    predicate IsFailure() { Err? }
    function PropagateFailure<U>(): Result<U>
      requires Err?
    {
      Err(error)
    }
    function Extract(): R
      requires Ok?
    {
      value
    }
  }
}

/** Python's float floor division and modulo by a positive divisor, over exact reals. */
module PyNum {
  /** Python's `x // d` for a positive float divisor. */
  function FloorDiv(x: real, d: real): int
    requires d > 0.0
  {
    (x / d).Floor
  }

  /** Python's `x % d` for a positive float divisor: never negative, below `d`. */
  function PyMod(x: real, d: real): (r: real)
    requires d > 0.0
    ensures 0.0 <= r < d
  {
    var t := x / d - FloorDiv(x, d) as real;
    ScaleFraction(t, d);
    d * t
  }

  lemma ScaleFraction(t: real, d: real)
    requires d > 0.0 && 0.0 <= t < 1.0
    ensures 0.0 <= d * t < d
  {
    assert d * (1.0 - t) > 0.0;
  }

  /**
   * `(int(x // 3600), int((x % 3600) // 60), int(x % 60))`: hours, minutes
   * and whole seconds of `x` seconds.
   */
  function ClockFields(x: real): (f: (int, int, int))
    ensures 0 <= f.1 < 60 && 0 <= f.2 < 60
    ensures (3600 * f.0 + 60 * f.1 + f.2) as real <= x < (3600 * f.0 + 60 * f.1 + f.2 + 1) as real
    ensures x >= 0.0 ==> f.0 >= 0
  {
    var hours := FloorDiv(x, 3600.0);
    var rem := PyMod(x, 3600.0);
    var minutes := FloorDiv(rem, 60.0);
    var seconds := PyMod(x, 60.0).Floor;
    ClockFieldsDecompose(x, hours, rem, minutes);
    (hours, minutes, seconds)
  }

  /** `int((x % 1) * 1000)`: the milliseconds past the whole second. */
  function Millis(x: real): (ms: int)
    ensures 0 <= ms < 1000
  {
    (PyMod(x, 1.0) * 1000.0).Floor
  }

  lemma ClockFieldsDecompose(x: real, hours: int, rem: real, minutes: int)
    requires hours == FloorDiv(x, 3600.0) && rem == PyMod(x, 3600.0) && minutes == FloorDiv(rem, 60.0)
    ensures 0 <= minutes < 60
    ensures x == 3600.0 * hours as real + rem
    ensures PyMod(x, 60.0) == rem - 60.0 * minutes as real
  {
    assert x / 60.0 == (60 * hours) as real + rem / 60.0;
    assert FloorDiv(x, 60.0) == 60 * hours + minutes;
  }
}
