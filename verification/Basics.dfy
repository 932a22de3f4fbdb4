/** Shared vocabulary: options, results with a reason for refusal, and the units used throughout. */
module Basics {

  /** Instants, in microseconds. */
  type Time = int

  /** Money, in hundredths of the currency unit (every money column has two decimal places). */
  type Cents = int

  /** Primary key of a user. A bidder profile or a seller profile belongs to exactly one user. */
  type User = nat

  const MINUTE: int := 60_000_000
  const DAY: int := 24 * 60 * MINUTE

  datatype Option<+T> = None | Some(value: T)

  /** Outcome of a service call: the new value, or the exception that rolled it back. */
  datatype Result<+T, +E> = Ok(value: T) | Err(why: E) {
    predicate IsFailure() { Err? }

    function PropagateFailure<U>(): Result<U, E>
      requires Err?
    {
      Err(why)
    }

    function Extract(): T
      requires Ok?
    {
      value
    }
  }

  /** A number as it is written in decimal. */
  function Digits(n: nat): string {
    var last := [('0' as int + n % 10) as char];
    if n < 10 then last else Digits(n / 10) + last
  }

  function Max(a: int, b: int): int {
    if a < b then b else a
  }

  /** The characters that `str.strip()` removes. */
  predicate IsSpace(c: char) {
    var n := c as int;
    9 <= n <= 13 || 28 <= n <= 32 || n == 0x85 || n == 0xA0 || n == 0x1680 || 0x2000 <= n <= 0x200A ||
    n == 0x2028 || n == 0x2029 || n == 0x202F || n == 0x205F || n == 0x3000
  }

  function Strip(s: string): string {
    if s != "" && IsSpace(s[0]) then Strip(s[1..])
    else if s != "" && IsSpace(s[|s| - 1]) then Strip(s[..|s| - 1])
    else s
  }
}
