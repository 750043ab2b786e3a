/** `dpiParamsSchema`: the validator `generateSensDpiPairs` runs on its four inputs, built from
    the form schema's `preprocessNumber` and `preprocessInteger` helpers. */
module DpiSchema {
  import opened Wrappers
  import opened CalcTypes
  import opened UserFormSchema

  const OrgSensField := "orgSens"
  const IntervalField := "dpiAcceptableInterval"

  const OrgSensMessage := "Original Sensitivity is required and must be a positive number"
  const CurrentDpiRequired := "Current DPI is required and must be a positive whole number"
  const CurrentDpiAboveZero := "Current DPI must be greater than 0"
  const DesiredDpiRequired := "Desired DPI is required and must be a positive whole number"
  const DesiredDpiAboveZero := "Desired DPI must be greater than 0"
  const IntervalRequired := "DPI Acceptable Interval is required and must be a positive whole number"
  const IntervalAboveZero := "DPI Acceptable Interval must be greater than 0"

  /** The parsed values (`DpiParamsValues`): the DPI fields are whole numbers. */
  datatype DpiParamsValues = DpiParamsValues(
    orgSens: real,
    currentDpi: int,
    desiredDpi: int,
    dpiAcceptableInterval: int)

  /** What `safeParse` returns. */
  datatype SafeParseResult = Success(data: DpiParamsValues) | Failure(issues: seq<Issue>)

  /** The schema accepts the parameters: all four present, a positive sensitivity and positive
      whole DPI values and interval. */
  predicate ParamsAccepted(p: DpiParams)
  {
    && IsPositive(p.orgSens)
    && IsPositiveInteger(p.currentDpi)
    && IsPositiveInteger(p.desiredDpi)
    && IsPositiveInteger(p.dpiAcceptableInterval)
  }

  /** The issues of `safeParse`, in field order. */
  function ParamIssues(p: DpiParams): (r: seq<Issue>)
    ensures r == [] <==> ParamsAccepted(p)
  {
    PreprocessNumber(OrgSensField, OrgSensMessage, p.orgSens)
    + PreprocessInteger(CurrentDpiField, CurrentDpiRequired, CurrentDpiAboveZero, p.currentDpi)
    + PreprocessInteger(DesiredDpiField, DesiredDpiRequired, DesiredDpiAboveZero, p.desiredDpi)
    + PreprocessInteger(IntervalField, IntervalRequired, IntervalAboveZero, p.dpiAcceptableInterval)
  }

  /** `dpiParamsSchema.safeParse(params)`: the validated values, or a non-empty list of issues. */
  function SafeParse(p: DpiParams): (r: SafeParseResult)
    ensures r.Success? <==> ParamsAccepted(p)
    ensures r.Failure? ==> r.issues == ParamIssues(p) && r.issues != []
    ensures r.Success? ==>
      && r.data.orgSens == p.orgSens.value && 0.0 < r.data.orgSens
      && r.data.currentDpi as real == p.currentDpi.value && 0 < r.data.currentDpi
      && r.data.desiredDpi as real == p.desiredDpi.value && 0 < r.data.desiredDpi
      && r.data.dpiAcceptableInterval as real == p.dpiAcceptableInterval.value
      && 0 < r.data.dpiAcceptableInterval
  {
    var issues := ParamIssues(p);
    if issues != [] then Failure(issues)
    else Success(DpiParamsValues(
      p.orgSens.value, p.currentDpi.value.Floor, p.desiredDpi.value.Floor,
      p.dpiAcceptableInterval.value.Floor))
  }

  /** The first issue names the first field, in declaration order, whose rule fails, with the
      message of that rule. */
  lemma FirstIssue(p: DpiParams)
    requires !ParamsAccepted(p)
    ensures ParamIssues(p)[0] ==
      if !IsPositive(p.orgSens) then Issue(OrgSensField, OrgSensMessage)
      else if p.currentDpi.None? || !IsInteger(p.currentDpi.value) then Issue(CurrentDpiField, CurrentDpiRequired)
      else if p.currentDpi.value <= 0.0 then Issue(CurrentDpiField, CurrentDpiAboveZero)
      else if p.desiredDpi.None? || !IsInteger(p.desiredDpi.value) then Issue(DesiredDpiField, DesiredDpiRequired)
      else if p.desiredDpi.value <= 0.0 then Issue(DesiredDpiField, DesiredDpiAboveZero)
      else if p.dpiAcceptableInterval.None? || !IsInteger(p.dpiAcceptableInterval.value) then Issue(IntervalField, IntervalRequired)
      else Issue(IntervalField, IntervalAboveZero)
  {
    var a := PreprocessNumber(OrgSensField, OrgSensMessage, p.orgSens);
    var b := PreprocessInteger(CurrentDpiField, CurrentDpiRequired, CurrentDpiAboveZero, p.currentDpi);
    var c := PreprocessInteger(DesiredDpiField, DesiredDpiRequired, DesiredDpiAboveZero, p.desiredDpi);
    var d := PreprocessInteger(IntervalField, IntervalRequired, IntervalAboveZero, p.dpiAcceptableInterval);
    assert ParamIssues(p) == a + b + c + d;
    if a != [] {
      assert ParamIssues(p)[0] == a[0];
    } else if b != [] {
      assert ParamIssues(p)[0] == b[0];
    } else if c != [] {
      assert ParamIssues(p)[0] == c[0];
    } else {
      assert ParamIssues(p)[0] == d[0];
    }
  }

  /** Every issue carries a non-empty message. */
  lemma ParamIssuesHaveMessages(p: DpiParams)
    ensures forall i :: 0 <= i < |ParamIssues(p)| ==> ParamIssues(p)[i].message != ""
  {
    var a := PreprocessNumber(OrgSensField, OrgSensMessage, p.orgSens);
    var b := PreprocessInteger(CurrentDpiField, CurrentDpiRequired, CurrentDpiAboveZero, p.currentDpi);
    var c := PreprocessInteger(DesiredDpiField, DesiredDpiRequired, DesiredDpiAboveZero, p.desiredDpi);
    var d := PreprocessInteger(IntervalField, IntervalRequired, IntervalAboveZero, p.dpiAcceptableInterval);
    var r := ParamIssues(p);
    assert r == a + b + c + d;
    forall i | 0 <= i < |r| ensures r[i].message != "" {
      if i < |a| {
        assert r[i] == a[i];
      } else if i < |a + b| {
        assert r[i] == b[i - |a|];
      } else if i < |a + b + c| {
        assert r[i] == c[i - |a + b|];
      } else {
        assert r[i] == d[i - |a + b + c|];
      }
    }
  }
}
