/** Small shared vocabulary: optional values, controller replies and whole-hour
    time differences. Timestamps are integer seconds. */
module Common {

  datatype Option<+T> = None | Some(value: T)
  {
    function GetOr(default: T): T {
      match this
      case Some(v) => v
      case None => default
    }
  }

  /** The outcome of an operation that can fail with a typed error. */
  datatype Result<+T, +E> = Ok(value: T) | Err(error: E)

  /** What a controller action answers: a success body, or an HTTP error status. */
  datatype Reply<+T> = Success(body: T) | Failure(code: nat)

  const BadRequest: nat := 400
  const Forbidden: nat := 403
  const NotFound: nat := 404
  const Unprocessable: nat := 422
  const ServerError: nat := 500

  const SecondsPerHour: int := 3600
  const SecondsPerDay: int := 24 * SecondsPerHour

  function Min(a: int, b: int): int { if a <= b then a else b }
  function Max(a: int, b: int): int { if a >= b then a else b }
  function MaxReal(a: real, b: real): real { if a >= b then a else b }
  function AbsReal(x: real): real { if x >= 0.0 then x else -x }

  /** Whole hours between two instants, rounded down, regardless of their order
      (the absolute `diffInHours` of the date library). */
  function HoursBetween(from: int, to: int): nat
  {
    if from <= to then (to - from) / SecondsPerHour else (from - to) / SecondsPerHour
  }

  lemma HoursBetweenMonotone(from: int, t1: int, t2: int)
    requires from <= t1 <= t2
    ensures HoursBetween(from, t1) <= HoursBetween(from, t2)
  {
    var d1, d2 := t1 - from, t2 - from;
    assert d1 == (d1 / SecondsPerHour) * SecondsPerHour + d1 % SecondsPerHour;
    assert d2 == (d2 / SecondsPerHour) * SecondsPerHour + d2 % SecondsPerHour;
  }

  /** A full day of whole hours has passed exactly when 86400 seconds have. */
  lemma FullDayOfHours(from: int, to: int)
    requires from <= to
    ensures HoursBetween(from, to) >= 24 <==> to - from >= SecondsPerDay
  {
    var d := to - from;
    assert d == (d / SecondsPerHour) * SecondsPerHour + d % SecondsPerHour;
  }

  /** Laravel's `required`/`filled` treat a string made only of trimmed
      characters (space, tab, newline, carriage return, NUL, vertical tab) as absent. */
  predicate IsBlank(s: string)
  {
    forall i :: 0 <= i < |s| ==> s[i] in {' ', '\t', '\n', '\r', '\0', 11 as char}
  }
}
