/** Money in and out of the ledger: decimal amounts become whole micros, rounded half to even. */
module SpendAmounts {

  const MICROS_PER_UNIT := 1_000_000.0

  /** `quantize(Decimal("1"))` under the default rounding, ROUND_HALF_EVEN. */
  function RoundHalfEven(x: real): (n: int)
    ensures x - 0.5 <= n as real <= x + 0.5
    ensures (n as real == x - 0.5 || n as real == x + 0.5) ==> n % 2 == 0
  {
    var below := x.Floor;
    var rest := x - below as real;
    if rest < 0.5 then below
    else if rest > 0.5 then below + 1
    else if below % 2 == 0 then below else below + 1
  }

  function Micros(amount: real): int { RoundHalfEven(amount * MICROS_PER_UNIT) }

  /** The amount a stored row is reported as. */
  function Reported(micros: int): real { micros as real / MICROS_PER_UNIT }

  /** The nearest integer is unique away from ties, and the even one at ties. */
  lemma RoundingIsDetermined(x: real, n: int)
    requires x - 0.5 <= n as real <= x + 0.5
    requires (n as real == x - 0.5 || n as real == x + 0.5) ==> n % 2 == 0
    ensures n == RoundHalfEven(x)
  {
  }

  /** An actual no larger than its estimate is no larger in micros, whatever the fractions of a micro. */
  lemma MicrosIsMonotone(actual: real, estimate: real)
    requires actual <= estimate
    ensures Micros(actual) <= Micros(estimate)
  {
  }

  lemma RoundingShifts(x: real)
    ensures RoundHalfEven(x + 1_000_000.0) == RoundHalfEven(x) + 1_000_000
  {
    var n := RoundHalfEven(x);
    hide RoundHalfEven;
    assert (n + 1_000_000) as real == n as real + 1_000_000.0;
    RoundingIsDetermined(x + 1_000_000.0, n + 1_000_000);
  }

  /** One unit is a million micros, wherever the rounding falls. */
  lemma OneUnitIsAMillion(amount: real)
    ensures Micros(amount + 1.0) == Micros(amount) + 1_000_000
  {
    RoundingShifts(amount * 1_000_000.0);
    hide RoundHalfEven;
    assert (amount + 1.0) * 1_000_000.0 == amount * 1_000_000.0 + 1_000_000.0;
  }

  /** Sending back an amount the ledger reported names exactly the stored micros. */
  lemma ReportedRoundTrips(micros: int)
    ensures Micros(Reported(micros)) == micros
  {
    assert Reported(micros) * MICROS_PER_UNIT == micros as real;
    RoundingIsDetermined(micros as real, micros);
  }
}
