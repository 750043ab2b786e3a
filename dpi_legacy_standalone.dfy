/** The second older copy of `generateSensDpiPairs` (dpi_test.ts). It declares its own
    `DpiParams` and `SensDpiPair` interfaces, of the same shape as the shared ones, and its body
    is the same as dpiTest.ts's; its specification is therefore `LegacyDpi.Generate`. */
module LegacyDpiStandalone {
  import opened Wrappers
  import opened CalcTypes
  import opened DpiLoop
  import LegacyDpi

  method GenerateSensDpiPairs(params: DpiParams) returns (r: Result<seq<SensDpiPair>>)
    requires LegacyDpi.StartsPositive(params)
    ensures r == LegacyDpi.Generate(params)
  {
    if params.orgSens.None? || params.currentDpi.None? || params.desiredDpi.None? || params.dpiAcceptableInterval.None? {
      return Throws(LegacyDpi.NullMessage);
    }
    var orgSens, currentDpi, desiredDpi, dpiAcceptableInterval :=
      params.orgSens.value, params.currentDpi.value, params.desiredDpi.value, params.dpiAcceptableInterval.value;
    if dpiAcceptableInterval <= 0.0 {
      return Throws(LegacyDpi.IntervalMessage);
    }
    var edpi := orgSens * currentDpi;
    var loopLimsBegin, loopLimsEnd := currentDpi, desiredDpi + 2.0 * dpiAcceptableInterval;
    var results: seq<SensDpiPair> := [];
    var dpi := loopLimsBegin;
    while dpi <= loopLimsEnd
      invariant loopLimsBegin <= dpi
      invariant results + KeptPairs(edpi, dpi, loopLimsEnd, dpiAcceptableInterval)
        == KeptPairs(edpi, loopLimsBegin, loopLimsEnd, dpiAcceptableInterval)
      decreases Remaining(dpi, loopLimsEnd, dpiAcceptableInterval)
    {
      RemainingDecreases(dpi, loopLimsEnd, dpiAcceptableInterval);
      var inGameSens := edpi / dpi;
      KeptPairsUnfold(edpi, dpi, loopLimsEnd, dpiAcceptableInterval);
      if AtMostTwoDecimals(inGameSens) {
        results := results + [SensDpiPair(inGameSens, dpi)];
      }
      dpi := dpi + dpiAcceptableInterval;
    }
    assert KeptPairs(edpi, dpi, loopLimsEnd, dpiAcceptableInterval) == [];
    assert results == KeptPairs(edpi, loopLimsBegin, loopLimsEnd, dpiAcceptableInterval);
    assert LegacyDpi.PassesChecks(params) && edpi == LegacyDpi.Edpi(params) && loopLimsEnd == LegacyDpi.LoopEnd(params);
    return Returns(results);
  }
}
