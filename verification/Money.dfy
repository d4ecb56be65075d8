/** The seam between the two ways the shop stores money: two-place decimals and integer cents. */
module Money {
  /** `Decimal.to_integral_value()`: to the nearest integer, a tie going to the even one. */
  function ToIntegral(x: real): (n: int)
    ensures -0.5 <= n as real - x <= 0.5
    ensures (n as real - x == 0.5 || n as real - x == -0.5) ==> n % 2 == 0
  {
    var below := x.Floor;
    var rest := x - below as real;
    if rest < 0.5 || (rest == 0.5 && below % 2 == 0) then below else below + 1
  }

  /** A column of two places: so many hundredths. */
  function TwoPlaces(hundredths: int): real {
    hundredths as real / 100.0
  }

  function InCents(total: real): int {
    ToIntegral(total * 100.0)
  }

  /** Nothing is rounded away on the way from an order to its invoice. */
  lemma InCentsIsExact(hundredths: int)
    ensures InCents(TwoPlaces(hundredths)) == hundredths
  {
    assert TwoPlaces(hundredths) * 100.0 == hundredths as real;
  }
}
