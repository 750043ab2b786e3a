/** The generator's input and output records, and the two-decimal rule the game imposes. */
module CalcTypes {
  import opened Wrappers

  /** Raw generator input: every field is a JavaScript number or null. */
  datatype DpiParams = DpiParams(
    orgSens: Option<real>,
    currentDpi: Option<real>,
    desiredDpi: Option<real>,
    dpiAcceptableInterval: Option<real>)

  /** One row of the generated table. */
  datatype SensDpiPair = SensDpiPair(inGameSens: real, dpi: real)

  /** The decimal expansion of `x` has at most two digits after the point:
      `100 * x` is a whole number. */
  predicate AtMostTwoDecimals(x: real)
  {
    (x * 100.0).Floor as real == x * 100.0
  }

  /** `n` hundredths. */
  function Hundredths(n: int): real
  {
    n as real / 100.0
  }

  /** The filter keeps exactly the whole multiples of one hundredth. */
  lemma AtMostTwoDecimalsIsHundredths(x: real)
    ensures AtMostTwoDecimals(x) <==> exists n: int :: x == Hundredths(n)
  {
    if AtMostTwoDecimals(x) {
      var n := (x * 100.0).Floor;
      assert x == Hundredths(n);
    }
    if n: int :| x == Hundredths(n) {
      assert x * 100.0 == n as real;
    }
  }
}
