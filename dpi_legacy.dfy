/** The older `generateSensDpiPairs` (dpiTest.ts). It rejects only a null input and a
    non-positive interval, then runs the shared loop over whatever numbers it was given, so a
    negative sensitivity or a fractional DPI goes through. */
module LegacyDpi {
  import opened Wrappers
  import opened CalcTypes
  import opened DpiLoop
  import DpiSchema
  import DpiCalc

  const NullMessage := "Invalid input parameters"
  const IntervalMessage := "dpiAcceptableInterval must be > 0"

  /** The inputs that get past the two checks: nothing is null and the interval is positive. */
  predicate PassesChecks(p: DpiParams)
  {
    && p.orgSens.Some? && p.currentDpi.Some? && p.desiredDpi.Some? && p.dpiAcceptableInterval.Some?
    && p.dpiAcceptableInterval.value > 0.0
  }

  /** Inputs that reach the loop start at a positive DPI, so no candidate divides by zero. */
  predicate StartsPositive(p: DpiParams)
  {
    PassesChecks(p) ==> p.currentDpi.value > 0.0
  }

  /** The last DPI the loop may visit. */
  function LoopEnd(p: DpiParams): real
    requires PassesChecks(p)
  {
    p.desiredDpi.value + 2.0 * p.dpiAcceptableInterval.value
  }

  /** eDPI: the original sensitivity times the current DPI. */
  function Edpi(p: DpiParams): real
    requires PassesChecks(p)
  {
    p.orgSens.value * p.currentDpi.value
  }

  /** The table for inputs that pass the checks. */
  function Table(p: DpiParams): seq<SensDpiPair>
    requires PassesChecks(p) && StartsPositive(p)
  {
    KeptPairs(Edpi(p), p.currentDpi.value, LoopEnd(p), p.dpiAcceptableInterval.value)
  }

  /** What the older `generateSensDpiPairs` returns or throws. */
  function Generate(p: DpiParams): (r: Result<seq<SensDpiPair>>)
    requires StartsPositive(p)
    ensures r.Throws? <==> !PassesChecks(p)
    ensures r.Throws? ==> r.message in {NullMessage, IntervalMessage}
  {
    if p.orgSens.None? || p.currentDpi.None? || p.desiredDpi.None? || p.dpiAcceptableInterval.None? then
      Throws(NullMessage)
    else if p.dpiAcceptableInterval.value <= 0.0 then
      Throws(IntervalMessage)
    else
      Returns(Table(p))
  }

  method GenerateSensDpiPairs(params: DpiParams) returns (r: Result<seq<SensDpiPair>>)
    requires StartsPositive(params)
    ensures r == Generate(params)
  {
    if params.orgSens.None? || params.currentDpi.None? || params.desiredDpi.None? || params.dpiAcceptableInterval.None? {
      return Throws(NullMessage);
    }
    var orgSens, currentDpi, desiredDpi, dpiAcceptableInterval :=
      params.orgSens.value, params.currentDpi.value, params.desiredDpi.value, params.dpiAcceptableInterval.value;
    if dpiAcceptableInterval <= 0.0 {
      return Throws(IntervalMessage);
    }
    var edpi := orgSens * currentDpi;
    var loopLimsBegin, loopLimsEnd := currentDpi, desiredDpi + 2.0 * dpiAcceptableInterval;
    var results: seq<SensDpiPair> := [];
    var dpi := loopLimsBegin;
    while dpi <= loopLimsEnd
      invariant loopLimsBegin <= dpi
      invariant results + KeptPairs(edpi, dpi, loopLimsEnd, dpiAcceptableInterval)
        == KeptPairs(edpi, loopLimsBegin, loopLimsEnd, dpiAcceptableInterval)
      decreases Remaining(dpi, loopLimsEnd, dpiAcceptableInterval)
    {
      RemainingDecreases(dpi, loopLimsEnd, dpiAcceptableInterval);
      var inGameSens := edpi / dpi;
      KeptPairsUnfold(edpi, dpi, loopLimsEnd, dpiAcceptableInterval);
      if AtMostTwoDecimals(inGameSens) {
        results := results + [SensDpiPair(inGameSens, dpi)];
      }
      dpi := dpi + dpiAcceptableInterval;
    }
    assert KeptPairs(edpi, dpi, loopLimsEnd, dpiAcceptableInterval) == [];
    assert results == KeptPairs(edpi, loopLimsBegin, loopLimsEnd, dpiAcceptableInterval);
    assert PassesChecks(params) && edpi == Edpi(params) && loopLimsEnd == LoopEnd(params);
    return Returns(results);
  }

  /** The only rejections: a null input, then a non-positive interval. */
  lemma GenerateThrowsOnlyOnChecks(p: DpiParams)
    requires StartsPositive(p)
    ensures Generate(p).Throws? <==> !PassesChecks(p)
    ensures Generate(p).Throws? ==>
      Generate(p).message == if p.orgSens.None? || p.currentDpi.None? || p.desiredDpi.None? || p.dpiAcceptableInterval.None?
        then NullMessage else IntervalMessage
  {
  }

  /** Inputs the schema rejects but this version accepts: a negative sensitivity and a
      fractional DPI. */
  lemma WeakerThanSchema()
    ensures Generate(DpiParams(Some(-1.0), Some(800.0), Some(1600.0), Some(100.0))).Returns?
    ensures DpiCalc.Generate(DpiParams(Some(-1.0), Some(800.0), Some(1600.0), Some(100.0))).Throws?
    ensures Generate(DpiParams(Some(1.0), Some(800.5), Some(1600.0), Some(100.0))).Returns?
    ensures DpiCalc.Generate(DpiParams(Some(1.0), Some(800.5), Some(1600.0), Some(100.0))).Throws?
  {
    assert !DpiSchema.ParamsAccepted(DpiParams(Some(1.0), Some(800.5), Some(1600.0), Some(100.0)));
  }

  /** Every returned row lies between `currentDpi` and `desiredDpi + 2 * interval`, on the grid
      `currentDpi + k * interval`, keeps the eDPI and has at most two decimals. */
  lemma GenerateRowsSound(p: DpiParams, i: nat)
    requires StartsPositive(p) && Generate(p).Returns? && i < |Generate(p).value|
    ensures var q, cur, step := Generate(p).value[i], p.currentDpi.value, p.dpiAcceptableInterval.value;
      && cur <= q.dpi <= LoopEnd(p)
      && (exists k: nat :: q.dpi == CandidateDpi(cur, step, k))
      && q.inGameSens * q.dpi == p.orgSens.value * cur
      && AtMostTwoDecimals(q.inGameSens)
  {
    assert PassesChecks(p);
    var edpi, cur, end, step := Edpi(p), p.currentDpi.value, LoopEnd(p), p.dpiAcceptableInterval.value;
    assert Generate(p).value == KeptPairs(edpi, cur, end, step);
    var q := KeptPairs(edpi, cur, end, step)[i];
    KeptPairsOnGrid(edpi, cur, end, step, q);
    KeptPairsKeepEdpi(edpi, cur, end, step, q);
  }

  /** The returned DPI values strictly increase. */
  lemma GenerateAscending(p: DpiParams)
    requires StartsPositive(p) && Generate(p).Returns?
    ensures forall i, j :: 0 <= i < j < |Generate(p).value| ==> Generate(p).value[i].dpi < Generate(p).value[j].dpi
  {
    assert PassesChecks(p);
    KeptPairsAscendingInRange(Edpi(p), p.currentDpi.value, LoopEnd(p), p.dpiAcceptableInterval.value);
  }

  /** On every input the schema accepts, this version returns what the validating version
      returns: the checks both pass and the loops are the same. */
  lemma AgreesWithValidatingVersion(p: DpiParams)
    requires DpiSchema.ParamsAccepted(p)
    ensures StartsPositive(p) && Generate(p) == DpiCalc.Generate(p)
  {
    var d := DpiSchema.SafeParse(p).data;
    assert DpiCalc.Edpi(d) == Edpi(p);
    assert DpiCalc.LoopEnd(d) as real == LoopEnd(p);
  }
}
