/** `generateSensDpiPairs` as the form store calls it: it validates its input with
    `dpiParamsSchema`, throws the first issue's message on failure, and otherwise walks the DPI
    values from `currentDpi` to `desiredDpi + 2 * dpiAcceptableInterval` in steps of the
    interval, keeping each `(edpi / dpi, dpi)` whose sensitivity has at most two decimals. */
module DpiCalc {
  import opened Wrappers
  import opened CalcTypes
  import opened UserFormSchema
  import opened DpiSchema
  import opened DpiLoop

  const FallbackMessage := "Invalid input parameters"

  /** `firstIssue?.message || "Invalid input parameters"`. */
  function ThrowMessage(issues: seq<Issue>): (r: string)
    ensures r != ""
    ensures issues != [] && issues[0].message != "" ==> r == issues[0].message
  {
    if issues != [] && issues[0].message != "" then issues[0].message else FallbackMessage
  }

  /** eDPI: the original sensitivity times the current DPI. */
  function Edpi(d: DpiParamsValues): real
  {
    d.orgSens * d.currentDpi as real
  }

  /** The last DPI the loop may visit: two intervals past the desired DPI. */
  function LoopEnd(d: DpiParamsValues): int
  {
    d.desiredDpi + 2 * d.dpiAcceptableInterval
  }

  /** The table for validated values. */
  function Table(d: DpiParamsValues): seq<SensDpiPair>
    requires 0 < d.currentDpi && 0 < d.dpiAcceptableInterval
  {
    KeptPairs(Edpi(d), d.currentDpi as real, LoopEnd(d) as real, d.dpiAcceptableInterval as real)
  }

  /** What `generateSensDpiPairs` returns or throws. */
  function Generate(p: DpiParams): (r: Result<seq<SensDpiPair>>)
    ensures r.Throws? <==> !ParamsAccepted(p)
    ensures r.Throws? ==> r.message != ""
  {
    match SafeParse(p)
    case Failure(issues) => Throws(ThrowMessage(issues))
    case Success(d) => Returns(Table(d))
  }

  method GenerateSensDpiPairs(params: DpiParams) returns (r: Result<seq<SensDpiPair>>)
    ensures r == Generate(params)
  {
    var result := SafeParse(params);
    if result.Failure? {
      return Throws(ThrowMessage(result.issues));
    }
    var orgSens, currentDpi, desiredDpi, dpiAcceptableInterval :=
      result.data.orgSens, result.data.currentDpi, result.data.desiredDpi, result.data.dpiAcceptableInterval;
    var edpi := orgSens * currentDpi as real;
    var loopLimsBegin, loopLimsEnd := currentDpi, desiredDpi + 2 * dpiAcceptableInterval;
    var results: seq<SensDpiPair> := [];
    var dpi := loopLimsBegin;
    ghost var step := dpiAcceptableInterval as real;
    while dpi <= loopLimsEnd
      invariant loopLimsBegin <= dpi
      invariant results + KeptPairs(edpi, dpi as real, loopLimsEnd as real, step)
        == KeptPairs(edpi, loopLimsBegin as real, loopLimsEnd as real, step)
      decreases loopLimsEnd - dpi
    {
      var inGameSens := edpi / dpi as real;
      KeptPairsUnfold(edpi, dpi as real, loopLimsEnd as real, step);
      assert dpi as real + step == (dpi + dpiAcceptableInterval) as real;
      if AtMostTwoDecimals(inGameSens) {
        results := results + [SensDpiPair(inGameSens, dpi as real)];
      }
      dpi := dpi + dpiAcceptableInterval;
    }
    assert KeptPairs(edpi, dpi as real, loopLimsEnd as real, step) == [];
    assert Edpi(result.data) == edpi && LoopEnd(result.data) == loopLimsEnd;
    assert results == Table(result.data);
    return Returns(results);
  }

  /** The generator throws exactly when the schema rejects the parameters, and then with the
      message of the first issue. */
  lemma GenerateThrowsIffRejected(p: DpiParams)
    ensures Generate(p).Throws? <==> !ParamsAccepted(p)
    ensures Generate(p).Throws? ==> Generate(p).message == ParamIssues(p)[0].message
  {
    ParamIssuesHaveMessages(p);
  }

  /** Every row of the table lies between the start and the bound, on the grid of whole DPI
      values `currentDpi + k * interval`. */
  lemma TableRowsOnGrid(d: DpiParamsValues, i: nat)
    requires 0 < d.currentDpi && 0 < d.dpiAcceptableInterval && i < |Table(d)|
    ensures var q, cur, step := Table(d)[i], d.currentDpi as real, d.dpiAcceptableInterval as real;
      && cur <= q.dpi <= LoopEnd(d) as real
      && IsInteger(q.dpi)
      && exists k: nat :: q.dpi == CandidateDpi(cur, step, k)
  {
    var edpi, cur, end, step := Edpi(d), d.currentDpi as real, LoopEnd(d) as real, d.dpiAcceptableInterval as real;
    var q := Table(d)[i];
    KeptPairsOnGrid(edpi, cur, end, step, q);
    var k: nat :| q.dpi == CandidateDpi(cur, step, k);
    assert q.dpi == (d.currentDpi + k * d.dpiAcceptableInterval) as real;
  }

  /** Every returned row's DPI lies between `currentDpi` and `desiredDpi + 2 * interval` and
      is the whole number `currentDpi + k * interval` for some `k`. */
  lemma GenerateRowsOnGrid(p: DpiParams, i: nat)
    requires Generate(p).Returns? && i < |Generate(p).value|
    ensures var q, cur, step := Generate(p).value[i], p.currentDpi.value, p.dpiAcceptableInterval.value;
      && cur <= q.dpi <= p.desiredDpi.value + 2.0 * step
      && IsInteger(q.dpi)
      && exists k: nat :: q.dpi == CandidateDpi(cur, step, k)
  {
    var d := SafeParse(p).data;
    assert Generate(p).value == Table(d);
    TableRowsOnGrid(d, i);
  }

  /** Every returned row keeps the eDPI, `inGameSens * dpi == orgSens * currentDpi`, and its
      sensitivity has at most two decimals. */
  lemma GenerateRowsKeepEdpi(p: DpiParams, i: nat)
    requires Generate(p).Returns? && i < |Generate(p).value|
    ensures var q := Generate(p).value[i];
      && q.inGameSens * q.dpi == p.orgSens.value * p.currentDpi.value
      && AtMostTwoDecimals(q.inGameSens)
  {
    var d := SafeParse(p).data;
    assert Generate(p).value == Table(d);
    assert Edpi(d) == p.orgSens.value * p.currentDpi.value;
    KeptPairsKeepEdpi(Edpi(d), d.currentDpi as real, LoopEnd(d) as real, d.dpiAcceptableInterval as real, Table(d)[i]);
  }

  /** The returned DPI values strictly increase. */
  lemma GenerateAscending(p: DpiParams)
    requires Generate(p).Returns?
    ensures forall i, j :: 0 <= i < j < |Generate(p).value| ==> Generate(p).value[i].dpi < Generate(p).value[j].dpi
  {
    var d := SafeParse(p).data;
    KeptPairsAscendingInRange(Edpi(d), d.currentDpi as real, LoopEnd(d) as real, d.dpiAcceptableInterval as real);
  }

  /** Completeness of the filter: every candidate DPI within the bound whose sensitivity has at
      most two decimals is returned with that sensitivity. */
  lemma GenerateKeepsEveryTwoDecimalCandidate(p: DpiParams, k: nat)
    requires ParamsAccepted(p)
    requires var cur, step := p.currentDpi.value, p.dpiAcceptableInterval.value;
      && CandidateDpi(cur, step, k) <= p.desiredDpi.value + 2.0 * step
      && AtMostTwoDecimals(p.orgSens.value * cur / CandidateDpi(cur, step, k))
    ensures var cur, step := p.currentDpi.value, p.dpiAcceptableInterval.value;
      Generate(p).Returns?
      && SensDpiPair(p.orgSens.value * cur / CandidateDpi(cur, step, k), CandidateDpi(cur, step, k)) in Generate(p).value
  {
    var d := SafeParse(p).data;
    assert Edpi(d) == p.orgSens.value * p.currentDpi.value;
    assert LoopEnd(d) as real == p.desiredDpi.value + 2.0 * p.dpiAcceptableInterval.value;
    KeptPairsComplete(Edpi(d), d.currentDpi as real, LoopEnd(d) as real, d.dpiAcceptableInterval as real, k);
  }

  /** A start beyond the end gives an empty table, not an error. */
  lemma GenerateEmptyPastEnd(p: DpiParams)
    requires ParamsAccepted(p)
    requires p.currentDpi.value > p.desiredDpi.value + 2.0 * p.dpiAcceptableInterval.value
    ensures Generate(p) == Returns([])
  {
  }

  /** The table has at most one row per loop iteration: `(end - currentDpi) / interval + 1`. */
  lemma GenerateLength(p: DpiParams)
    requires Generate(p).Returns?
    ensures var c, s := p.currentDpi.value.Floor, p.dpiAcceptableInterval.value.Floor;
      var e := p.desiredDpi.value.Floor + 2 * s;
      |Generate(p).value| <= if c <= e then (e - c) / s + 1 else 0
  {
    var d := SafeParse(p).data;
    KeptPairsLength(Edpi(d), d.currentDpi as real, LoopEnd(d) as real, d.dpiAcceptableInterval as real);
    IterationsOfWholeNumbers(d.currentDpi, LoopEnd(d), d.dpiAcceptableInterval);
  }

  /** Original sensitivity 1 at 800 DPI, desired 1600, interval 400: of the candidates 800,
      1200, 1600, 2000 and 2400, only 1200 (0.666...) and 2400 (0.333...) are dropped. */
  lemma WholeSensitivityExample()
    ensures Generate(DpiParams(Some(1.0), Some(800.0), Some(1600.0), Some(400.0)))
      == Returns([SensDpiPair(1.0, 800.0), SensDpiPair(0.5, 1600.0), SensDpiPair(0.4, 2000.0)])
  {
    var p := DpiParams(Some(1.0), Some(800.0), Some(1600.0), Some(400.0));
    assert SafeParse(p) == Success(DpiParamsValues(1.0, 800, 1600, 400));
    KeptPairsUnfold(800.0, 800.0, 2400.0, 400.0);
    KeptPairsUnfold(800.0, 1200.0, 2400.0, 400.0);
    KeptPairsUnfold(800.0, 1600.0, 2400.0, 400.0);
    KeptPairsUnfold(800.0, 2000.0, 2400.0, 400.0);
    KeptPairsUnfold(800.0, 2400.0, 2400.0, 400.0);
    assert KeptPairs(800.0, 2800.0, 2400.0, 400.0) == [];
    assert (800.0 / 1200.0 * 100.0).Floor == 66;
    assert (800.0 / 2400.0 * 100.0).Floor == 33;
    assert AtMostTwoDecimals(1.0) && AtMostTwoDecimals(0.5) && AtMostTwoDecimals(0.4);
    assert KeptPairs(800.0, 800.0, 2400.0, 400.0)
      == [SensDpiPair(1.0, 800.0), SensDpiPair(0.5, 1600.0), SensDpiPair(0.4, 2000.0)];
  }

  /** Original sensitivity 1.23 at 1000 DPI, desired 1500, interval 250: 0.984, 0.702857...
      and 0.615 are dropped, 1.23 and 0.82 are kept. */
  lemma FractionalSensitivityExample()
    ensures Generate(DpiParams(Some(1.23), Some(1000.0), Some(1500.0), Some(250.0)))
      == Returns([SensDpiPair(1.23, 1000.0), SensDpiPair(0.82, 1500.0)])
  {
    var p := DpiParams(Some(1.23), Some(1000.0), Some(1500.0), Some(250.0));
    assert SafeParse(p) == Success(DpiParamsValues(1.23, 1000, 1500, 250));
    KeptPairsUnfold(1230.0, 1000.0, 2000.0, 250.0);
    KeptPairsUnfold(1230.0, 1250.0, 2000.0, 250.0);
    KeptPairsUnfold(1230.0, 1500.0, 2000.0, 250.0);
    KeptPairsUnfold(1230.0, 1750.0, 2000.0, 250.0);
    KeptPairsUnfold(1230.0, 2000.0, 2000.0, 250.0);
    assert (1230.0 / 1250.0 * 100.0).Floor == 98;
    assert (1230.0 / 1750.0 * 100.0).Floor == 70;
    assert (1230.0 / 2000.0 * 100.0).Floor == 61;
    assert KeptPairs(1230.0, 2250.0, 2000.0, 250.0) == [];
    assert AtMostTwoDecimals(1.23) && AtMostTwoDecimals(0.82);
    assert Edpi(DpiParamsValues(1.23, 1000, 1500, 250)) == 1230.0;
    assert KeptPairs(1230.0, 1000.0, 2000.0, 250.0) == [SensDpiPair(1.23, 1000.0), SensDpiPair(0.82, 1500.0)];
  }

  /** A start beyond the end of the range: 2000 DPI against a range ending at 200. */
  lemma EmptyRangeExample()
    ensures Generate(DpiParams(Some(1.0), Some(2000.0), Some(100.0), Some(50.0))) == Returns([])
  {
    var p := DpiParams(Some(1.0), Some(2000.0), Some(100.0), Some(50.0));
    assert SafeParse(p) == Success(DpiParamsValues(1.0, 2000, 100, 50));
  }

  /** Missing, non-positive and fractional inputs all throw, each with its field's message. */
  lemma RejectionExamples()
    ensures Generate(DpiParams(None, Some(800.0), Some(1600.0), Some(100.0))) == Throws(OrgSensMessage)
    ensures Generate(DpiParams(Some(1.0), None, Some(1600.0), Some(100.0))) == Throws(CurrentDpiRequired)
    ensures Generate(DpiParams(Some(1.0), Some(800.0), None, Some(100.0))) == Throws(DesiredDpiRequired)
    ensures Generate(DpiParams(Some(1.0), Some(800.0), Some(1600.0), None)) == Throws(IntervalRequired)
    ensures Generate(DpiParams(Some(1.0), Some(800.0), Some(1600.0), Some(0.0))) == Throws(IntervalAboveZero)
    ensures Generate(DpiParams(Some(1.0), Some(800.0), Some(1600.0), Some(-100.0))) == Throws(IntervalAboveZero)
    ensures Generate(DpiParams(Some(-1.0), Some(800.0), Some(1600.0), Some(100.0))) == Throws(OrgSensMessage)
    ensures Generate(DpiParams(Some(1.0), Some(-800.0), Some(1600.0), Some(100.0))) == Throws(CurrentDpiAboveZero)
    ensures Generate(DpiParams(Some(1.0), Some(800.0), Some(-1600.0), Some(100.0))) == Throws(DesiredDpiAboveZero)
    ensures Generate(DpiParams(Some(1.0), Some(800.5), Some(1600.0), Some(100.0))) == Throws(CurrentDpiRequired)
    ensures Generate(DpiParams(Some(1.0), Some(800.0), Some(1600.7), Some(100.0))) == Throws(DesiredDpiRequired)
    ensures Generate(DpiParams(Some(1.0), Some(800.0), Some(1600.0), Some(100.3))) == Throws(IntervalRequired)
  {
  }
}
