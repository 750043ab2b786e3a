/** `UserFormStore`: the form's state. Five input fields, the per-field error messages shown
    under them, and the submit lock and error. An absent key in `fieldErrors` stands for
    `undefined`. `submitForm` has no `await`, so it is modelled as one synchronous call. */
module UserFormStores {
  import opened Wrappers
  import opened CalcTypes
  import opened UserFormSchema
  import DpiSchema
  import DpiCalc

  /** The last element of a non-empty sequence. */
  function Last<T>(s: seq<T>): T
    requires s != []
  {
    s[|s| - 1]
  }

  /** `issues.find(issue => issue.path[0] === field)?.message`: the first message for `field`. */
  function FirstMessage(issues: seq<Issue>, field: string): (r: Option<string>)
    ensures r.Some? ==> Issue(field, r.value) in issues
  {
    if issues == [] then None
    else if issues[0].path == field then Some(issues[0].message)
    else FirstMessage(issues[1..], field)
  }

  /** `FirstMessage` finds the first of the issues that name `field`, if there is one. */
  lemma {:induction false} FirstMessageFinds(issues: seq<Issue>, field: string)
    ensures FirstMessage(issues, field) ==
      if IssuesFor(issues, field) == [] then None else Some(IssuesFor(issues, field)[0].message)
  {
    if issues != [] && issues[0].path != field {
      FirstMessageFinds(issues[1..], field);
    }
  }

  /** The map `validateForm` builds with `forEach`: each issue overwrites the entry of its
      field, so the last message for a field wins. */
  function ErrorMap(issues: seq<Issue>): (m: map<string, string>)
    ensures forall f :: f in m ==> Issue(f, m[f]) in issues
  {
    if issues == [] then map[]
    else ErrorMap(issues[..|issues| - 1])[Last(issues).path := Last(issues).message]
  }

  /** One more `forEach` step. */
  lemma ErrorMapStep(issues: seq<Issue>, i: nat)
    requires i < |issues|
    ensures ErrorMap(issues[..i + 1]) == ErrorMap(issues[..i])[issues[i].path := issues[i].message]
  {
    assert issues[..i + 1][..i] == issues[..i];
  }

  /** The `forEach` of `validateForm`: each issue writes its message under its field. */
  method CollectErrors(issues: seq<Issue>) returns (newErrors: map<string, string>)
    ensures newErrors == ErrorMap(issues)
  {
    newErrors := map[];
    for i := 0 to |issues|
      invariant newErrors == ErrorMap(issues[..i])
    {
      ErrorMapStep(issues, i);
      newErrors := newErrors[issues[i].path := issues[i].message];
    }
    assert issues[..|issues|] == issues;
  }

  lemma IssuesForSingle(x: Issue, field: string)
    ensures IssuesFor([x], field) == if x.path == field then [x] else []
  {
    assert [x][1..] == [];
  }

  /** `ErrorMap` has an entry for exactly the fields with issues, holding the last of them. */
  lemma {:induction false} ErrorMapKeepsLast(issues: seq<Issue>, field: string)
    ensures field in ErrorMap(issues) <==> IssuesFor(issues, field) != []
    ensures field in ErrorMap(issues) ==> ErrorMap(issues)[field] == Last(IssuesFor(issues, field)).message
  {
    if issues != [] {
      var n := |issues| - 1;
      assert issues == issues[..n] + [issues[n]];
      IssuesForConcat(issues[..n], [issues[n]], field);
      IssuesForSingle(issues[n], field);
      ErrorMapKeepsLast(issues[..n], field);
    }
  }

  /** After `validateForm`, a field has an entry exactly when its rule fails, and the entry is
      the last message of that rule. */
  lemma FormErrorsPerField(v: UserFormValues, field: string)
    ensures field in ErrorMap(FormIssues(v)) <==> FieldRuleIssues(v, field) != []
    ensures field in ErrorMap(FormIssues(v)) <==> !FieldAccepts(v, field)
    ensures field in ErrorMap(FormIssues(v)) ==>
      ErrorMap(FormIssues(v))[field] == Last(FieldRuleIssues(v, field)).message
      && ErrorMap(FormIssues(v))[field] != ""
  {
    ErrorMapKeepsLast(FormIssues(v), field);
    FormIssuesFor(v, field);
    FieldRuleIssuesEmpty(v, field);
  }

  lemma FormErrorsAll(v: UserFormValues)
    ensures forall f :: f in ErrorMap(FormIssues(v)) <==> !FieldAccepts(v, f)
    ensures forall f :: f in ErrorMap(FormIssues(v)) ==> ErrorMap(FormIssues(v))[f] != ""
  {
    forall f ensures f in ErrorMap(FormIssues(v)) <==> !FieldAccepts(v, f)
      ensures f in ErrorMap(FormIssues(v)) ==> ErrorMap(FormIssues(v))[f] != ""
    {
      FormErrorsPerField(v, f);
    }
  }

  /** After `validateField(field)` on an invalid form, `field` has an entry exactly when its
      own rule fails, and the entry is the first message of that rule. */
  lemma FieldErrorPerField(v: UserFormValues, field: string)
    ensures FirstMessage(FormIssues(v), field) ==
      if FieldRuleIssues(v, field) == [] then None else Some(FieldRuleIssues(v, field)[0].message)
    ensures FirstMessage(FormIssues(v), field).Some? <==> !FieldAccepts(v, field)
    ensures FirstMessage(FormIssues(v), field).Some? ==> FirstMessage(FormIssues(v), field).value != ""
  {
    var issues := FormIssues(v);
    var rule := FieldRuleIssues(v, field);
    var first := FirstMessage(issues, field);
    FirstMessageFinds(issues, field);
    FormIssuesFor(v, field);
    assert IssuesFor(issues, field) == rule;
    FieldRuleIssuesEmpty(v, field);
    assert first.Some? <==> rule != [];
    assert first.Some? ==> first.value == rule[0].message;
  }

  /** An accepted form has all four numbers. */
  lemma FormAcceptedHasNumbers(v: UserFormValues)
    requires FormAccepts(v)
    ensures v.currentSens.Some? && v.currentDpi.Some? && v.desiredDpi.Some? && v.dpiInc.Some?
  {
    FormAcceptsSpelledOut(v);
  }

  /** `this.fieldErrors[field] = message`, where an `undefined` message removes the entry. */
  function Recorded(errors: map<string, string>, message: Option<string>, field: string): map<string, string>
  {
    match message
    case Some(m) => errors[field := m]
    case None => errors - {field}
  }

  /** What `validateField(field)` records: an entry for `field` exactly when its own rule
      fails, holding that rule's first message, and never an empty message. */
  lemma ValidateFieldRecords(v: UserFormValues, errors: map<string, string>, field: string)
    requires forall f :: f in errors ==> errors[f] != ""
    ensures var e := Recorded(errors, FirstMessage(FormIssues(v), field), field);
      && (forall f :: f in e ==> e[f] != "")
      && (field in e <==> FieldRuleIssues(v, field) != [])
      && (field in e <==> !FieldAccepts(v, field))
      && (field in e ==> e[field] == FieldRuleIssues(v, field)[0].message)
  {
    FieldErrorPerField(v, field);
    FieldRuleIssuesEmpty(v, field);
  }

  /** A DPI that is neither whole nor positive breaks two rules: `validateField` shows the
      first message and `validateForm` the last. */
  lemma FindKeepsFirstForEachKeepsLast(v: UserFormValues)
    requires v.currentDpi == Some(-0.5)
    ensures FirstMessage(FormIssues(v), CurrentDpiField) == Some(CurrentDpiInteger)
    ensures CurrentDpiField in ErrorMap(FormIssues(v))
      && ErrorMap(FormIssues(v))[CurrentDpiField] == CurrentDpiPositive
  {
    var rule := IntegerIssues(CurrentDpiField, Required, CurrentDpiInteger, CurrentDpiPositive, v.currentDpi);
    FieldNamesDistinct();
    assert FieldRuleIssues(v, CurrentDpiField) == rule;
    assert !IsInteger(-0.5);
    assert rule[0] == Issue(CurrentDpiField, CurrentDpiInteger);
    assert Last(rule) == Issue(CurrentDpiField, CurrentDpiPositive);
    FieldErrorPerField(v, CurrentDpiField);
    FormErrorsPerField(v, CurrentDpiField);
  }

  /** A blank name is rejected and reported as missing, although `canSubmit` does not look at
      the name: the form schema requires one. */
  lemma BlankNameRejected(v: UserFormValues)
    requires Trim(v.name) == []
    ensures !FormAccepts(v)
    ensures NameField in ErrorMap(FormIssues(v)) && ErrorMap(FormIssues(v))[NameField] == NameRequired
  {
    FieldNamesDistinct();
    assert FieldRuleIssues(v, NameField) == [Issue(NameField, NameRequired)];
    FormErrorsPerField(v, NameField);
  }

  /** The generator input `submitForm` builds from the store's values: the form is accepted
      exactly when the generator's schema accepts the payload and the name is valid. */
  function Payload(v: UserFormValues): (r: DpiParams)
    ensures FormAccepts(v) <==> DpiSchema.ParamsAccepted(r) && 1 <= |Trim(v.name)| <= MaxNameLength
  {
    FormAcceptsSpelledOut(v);
    DpiParams(v.currentSens, v.currentDpi, v.desiredDpi, v.dpiInc)
  }

  /** Values the form schema accepts also pass the generator's own schema, so the generator
      never throws from `submitForm`. */
  lemma AcceptedFormNeverThrows(v: UserFormValues)
    requires FormAccepts(v)
    ensures DpiSchema.ParamsAccepted(Payload(v))
    ensures DpiCalc.Generate(Payload(v)).Returns?
  {
    DpiCalc.GenerateThrowsIffRejected(Payload(v));
  }

  /** The message `submitForm` records when the generator throws. */
  function ThrownMessage<T>(r: Result<T>): Option<string>
  {
    match r
    case Throws(m) => Some(m)
    case Returns(_) => None
  }

  /** The whole observable state of the store. */
  datatype StoreState = StoreState(
    values: UserFormValues,
    submitLocked: bool,
    submitError: Option<string>,
    fieldErrors: map<string, string>)

  class UserFormStore {
    var name: string
    var currentSens: Option<real>
    var currentDpi: Option<real>
    var desiredDpi: Option<real>
    var dpiInc: Option<real>

    var submitLocked: bool
    var submitError: Option<string>
    var fieldErrors: map<string, string>

    /** Every recorded error is a non-empty message, so "has a truthy error" is "has an entry". */
    ghost predicate Valid()
      reads this
    {
      forall f :: f in fieldErrors ==> fieldErrors[f] != ""
    }

    /** The values handed to the schema. */
    function Values(): UserFormValues
      reads this`name, this`currentSens, this`currentDpi, this`desiredDpi, this`dpiInc
    {
      UserFormValues(name, currentSens, currentDpi, desiredDpi, dpiInc)
    }

    function State(): StoreState
      reads this
    {
      StoreState(Values(), submitLocked, submitError, fieldErrors)
    }

    /** Empty name, no numbers, unlocked, no submit error and no field errors. */
    ghost predicate IsInitial()
      reads this
    {
      State() == StoreState(UserFormValues("", None, None, None, None), false, None, map[])
    }

    constructor ()
      ensures Valid() && IsInitial()
    {
      name := "";
      currentSens := None;
      currentDpi := None;
      desiredDpi := None;
      dpiInc := None;
      submitLocked := false;
      submitError := None;
      fieldErrors := map[];
    }

    method SetName(newName: string)
      requires Valid()
      modifies this
      ensures Valid()
      ensures State() == old(State()).(values := old(Values()).(name := newName),
                                       fieldErrors := old(fieldErrors) - {NameField})
    {
      name := newName;
      if NameField in fieldErrors && fieldErrors[NameField] != "" {
        fieldErrors := fieldErrors - {NameField};
      }
    }

    method SetCurrentSens(sens: Option<real>)
      requires Valid()
      modifies this
      ensures Valid()
      ensures State() == old(State()).(values := old(Values()).(currentSens := sens),
                                       fieldErrors := old(fieldErrors) - {CurrentSensField})
    {
      currentSens := sens;
      if CurrentSensField in fieldErrors && fieldErrors[CurrentSensField] != "" {
        fieldErrors := fieldErrors - {CurrentSensField};
      }
    }

    method SetCurrentDpi(dpi: Option<real>)
      requires Valid()
      modifies this
      ensures Valid()
      ensures State() == old(State()).(values := old(Values()).(currentDpi := dpi),
                                       fieldErrors := old(fieldErrors) - {CurrentDpiField})
    {
      currentDpi := dpi;
      if CurrentDpiField in fieldErrors && fieldErrors[CurrentDpiField] != "" {
        fieldErrors := fieldErrors - {CurrentDpiField};
      }
    }

    method SetDesiredDpi(dpi: Option<real>)
      requires Valid()
      modifies this
      ensures Valid()
      ensures State() == old(State()).(values := old(Values()).(desiredDpi := dpi),
                                       fieldErrors := old(fieldErrors) - {DesiredDpiField})
    {
      desiredDpi := dpi;
      if DesiredDpiField in fieldErrors && fieldErrors[DesiredDpiField] != "" {
        fieldErrors := fieldErrors - {DesiredDpiField};
      }
    }

    method SetDpiInc(dpi: Option<real>)
      requires Valid()
      modifies this
      ensures Valid()
      ensures State() == old(State()).(values := old(Values()).(dpiInc := dpi),
                                       fieldErrors := old(fieldErrors) - {DpiIncField})
    {
      dpiInc := dpi;
      if DpiIncField in fieldErrors && fieldErrors[DpiIncField] != "" {
        fieldErrors := fieldErrors - {DpiIncField};
      }
    }

    /** Validates the whole form but records only `fieldName`'s first issue. */
    method ValidateField(fieldName: string) returns (ok: bool)
      requires Valid()
      modifies this
      ensures Valid()
      ensures ok <==> FormAccepts(Values())
      ensures State() == old(State()).(fieldErrors :=
        Recorded(old(fieldErrors), FirstMessage(FormIssues(Values()), fieldName), fieldName))
      ensures fieldName in fieldErrors <==> FieldRuleIssues(Values(), fieldName) != []
      ensures fieldName in fieldErrors ==> fieldErrors[fieldName] == FieldRuleIssues(Values(), fieldName)[0].message
      ensures fieldName in fieldErrors <==> !FieldAccepts(Values(), fieldName)
    {
      var values := Values();
      var issues := FormIssues(values);
      if issues != [] {
        var fieldError := FirstMessage(issues, fieldName);
        fieldErrors := Recorded(fieldErrors, fieldError, fieldName);
        assert Values() == values;
        ValidateFieldRecords(values, old(fieldErrors), fieldName);
        return false;
      }
      fieldErrors := fieldErrors - {fieldName};
      assert Values() == values;
      assert Recorded(old(fieldErrors), FirstMessage(issues, fieldName), fieldName) == fieldErrors;
      ValidateFieldRecords(values, old(fieldErrors), fieldName);
      return true;
    }

    /** Validates the whole form and replaces every field error. */
    method ValidateForm() returns (ok: bool)
      requires Valid()
      modifies this
      ensures Valid()
      ensures ok <==> FormAccepts(Values())
      ensures State() == old(State()).(fieldErrors := ErrorMap(FormIssues(Values())))
      ensures forall f :: f in fieldErrors <==> !FieldAccepts(Values(), f)
      ensures ok ==> fieldErrors == map[] && (CanSubmit() <==> !submitLocked)
    {
      var values := Values();
      var issues := FormIssues(values);
      FormErrorsAll(values);
      if issues != [] {
        var newErrors := CollectErrors(issues);
        fieldErrors := newErrors;
        assert Values() == values;
        return false;
      }
      FormAcceptedHasNumbers(values);
      assert ErrorMap(issues) == map[];
      fieldErrors := map[];
      assert Values() == values;
      return true;
    }

    /** `canSubmit`: no field shows an error, the four numbers are set and no submission is
        running. The name is not required here. */
    function CanSubmit(): (r: bool)
      reads this
      ensures r <==> (fieldErrors == map[] && currentSens.Some? && currentDpi.Some? && desiredDpi.Some?
        && dpiInc.Some? && !submitLocked)
      ensures r ==> !submitLocked && fieldErrors == map[]
      ensures r ==> (Payload(Values()).orgSens.Some? && Payload(Values()).currentDpi.Some?
        && Payload(Values()).desiredDpi.Some? && Payload(Values()).dpiAcceptableInterval.Some?)
    {
      var hasErrors := exists f :: f in fieldErrors;
      var hasRequiredFields := currentSens.Some? && currentDpi.Some? && desiredDpi.Some? && dpiInc.Some?;
      !hasErrors && hasRequiredFields && !submitLocked
    }

    /** Validates; if the form is valid and no submission is running, runs the generator with
        the lock held and records what it throws. */
    method SubmitForm()
      requires Valid()
      modifies this
      ensures Valid()
      ensures Values() == old(Values())
      ensures fieldErrors == ErrorMap(FormIssues(Values()))
      ensures !FormAccepts(Values()) || old(submitLocked) ==>
        submitLocked == old(submitLocked) && submitError == old(submitError)
      ensures FormAccepts(Values()) && !old(submitLocked) ==>
        !submitLocked && submitError == ThrownMessage(DpiCalc.Generate(Payload(Values())))
      ensures FormAccepts(Values()) && !old(submitLocked) ==> submitError == None
    {
      var ok := ValidateForm();
      if !ok {
        return;
      }
      if submitLocked {
        return;
      }
      submitError := None;
      submitLocked := true;
      var resp := DpiCalc.GenerateSensDpiPairs(Payload(Values()));
      submitLocked := false;
      submitError := ThrownMessage(resp);
      AcceptedFormNeverThrows(Values());
    }

    method Reset()
      modifies this
      ensures Valid() && IsInitial()
    {
      name := "";
      currentSens := None;
      currentDpi := None;
      desiredDpi := None;
      dpiInc := None;
      submitLocked := false;
      submitError := None;
      fieldErrors := map[];
    }
  }
}
