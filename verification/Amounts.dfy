/** Bid amounts as they arrive from outside, and the check that turns them into cents. */
module Amounts {
  import opened Basics
  import opened Records

  /**
   * A value handed to the bidding service: a Python integer, a decimal given by sign, coefficient and
   * exponent, one of the decimal specials, or something of another type.
   */
  datatype Amount =
    | Whole(n: int)
    | Finite(negative: bool, coefficient: nat, exponent: int)
    | Infinite(below: bool)
    | NotANumber
    | OtherType

  function Pow10(n: nat): nat
    ensures Pow10(n) > 0
  {
    if n == 0 then 1 else 10 * Pow10(n - 1)
  }

  function Scaled(negative: bool, magnitude: nat): int {
    var m: int := magnitude;
    if negative then -m else m
  }

  function ToCents(amount: Amount): (r: Result<Cents, Refusal>) {
    match amount
    case Whole(n) => Bounded(100 * n)
    case Finite(negative, coefficient, exponent) =>
      if exponent < -2 then Err(TooManyDecimals)
      else Bounded(Scaled(negative, coefficient * Pow10(exponent + 2)))
    case _ => Err(NotAnAmount)
  }

  function Bounded(cents: Cents): Result<Cents, Refusal> {
    if cents >= MAX_BID then Err(AmountTooLarge) else Ok(cents)
  }

  /** The number an amount denotes, as numerator and positive denominator, if it denotes one. */
  ghost function Denotes(amount: Amount): (q: Option<(int, nat)>)
    ensures q.Some? ==> q.value.1 > 0
  {
    match amount
    case Whole(n) => Some((n, 1))
    case Finite(negative, coefficient, exponent) =>
      var signed := (if negative then -1 else 1) * coefficient;
      Some(if exponent >= 0 then (signed * Pow10(exponent), 1) else (signed, Pow10(-exponent)))
    case _ => None
  }

  /** The test the check makes on the notation of the amount, before looking at its size. */
  predicate WellFormed(amount: Amount) {
    amount.Whole? || (amount.Finite? && amount.exponent >= -2)
  }

  lemma Pow10Adds(a: nat, b: nat)
    ensures Pow10(a + b) == Pow10(a) * Pow10(b)
  {
    if a != 0 {
      Pow10Adds(a - 1, b);
      assert Pow10(a + b) == 10 * Pow10(a - 1 + b);
    }
  }

  lemma SmallPowers()
    ensures Pow10(0) == 1 && Pow10(1) == 10 && Pow10(2) == 100 && Pow10(3) == 1000
  {
  }

  /**
   * An amount is let through exactly when it is well formed and the number it denotes is below
   * 10^12; what comes out is then that number in cents, with nothing rounded away.
   */
  lemma ToCentsIsExact(amount: Amount)
    ensures ToCents(amount).Ok? <==>
              WellFormed(amount) && Denotes(amount).Some? &&
              Denotes(amount).value.0 < 1_000_000_000_000 * Denotes(amount).value.1
    ensures ToCents(amount).Ok? ==>
              ToCents(amount).value * Denotes(amount).value.1 == 100 * Denotes(amount).value.0
  {
    SmallPowers();
    if amount.Finite? && amount.exponent >= 0 {
      Pow10Adds(amount.exponent, 2);
      assert amount.coefficient * Pow10(amount.exponent + 2) == 100 * (amount.coefficient * Pow10(amount.exponent));
    }
  }

  /** Every whole number of cents below the limit can be offered: written with two decimals it comes back unchanged. */
  lemma TwoDecimalsRoundTrip(cents: Cents)
    ensures ToCents(Finite(cents < 0, if cents < 0 then -cents else cents, -2))
         == if cents < MAX_BID then Ok(cents) else Err(AmountTooLarge)
  {
  }

  /**
   * The check looks at the notation and not at the number: 100.000 is a whole number of cents, equal
   * to 100.00, yet it is refused.
   */
  lemma TrailingZeroIsRefused()
    ensures Denotes(Finite(false, 100_000, -3)) == Some((100_000, 1000))
    ensures Denotes(Finite(false, 10_000, -2)) == Some((10_000, 100))
    ensures ToCents(Finite(false, 100_000, -3)) == Err(TooManyDecimals)
    ensures ToCents(Finite(false, 10_000, -2)) == Ok(10_000)
  {
  }
}
