/** The form's declarative validator, `userFormSchema`, and the number rules it is built from.
    `safeParse` is modelled by `FormIssues`: the list of issues in field-declaration order,
    empty exactly when the values are accepted. */
module UserFormSchema {
  import opened Wrappers

  /** A validation issue: the field it is attributed to (`path[0]`) and its message. */
  datatype Issue = Issue(path: string, message: string)

  const NameField := "name"
  const CurrentSensField := "currentSens"
  const CurrentDpiField := "currentDpi"
  const DesiredDpiField := "desiredDpi"
  const DpiIncField := "dpiInc"

  const NameRequired := "Name is required"
  const NameTooLong := "Name too long"
  const CurrentSensPositive := "Current Sens must be > 0"
  const CurrentDpiInteger := "Current DPI must be an integer"
  const CurrentDpiPositive := "Current DPI must be > 0"
  const DesiredDpiInteger := "Desired DPI must be an integer"
  const DesiredDpiPositive := "Desired DPI must be > 0"
  const DpiIncInteger := "DPI Increment must be an integer"
  const DpiIncPositive := "DPI Increment must be > 0"
  /** zod's default message for a number that is `undefined`; the store's `null` is assumed to
      reach zod as `undefined`. */
  const Required := "Required"

  const MaxNameLength := 32

  /** The values the store hands to the schema. */
  datatype UserFormValues = UserFormValues(
    name: string,
    currentSens: Option<real>,
    currentDpi: Option<real>,
    desiredDpi: Option<real>,
    dpiInc: Option<real>)

  /** The code points `String.prototype.trim` removes, as inclusive ranges: the white space
      and line terminators of ECMAScript (tab to carriage return, space, no-break space, the
      Unicode space separators, line and paragraph separators, and the byte order mark). */
  const WhitespaceRanges: seq<(int, int)> := [
    (0x09, 0x0D), (0x20, 0x20), (0xA0, 0xA0), (0x1680, 0x1680), (0x2000, 0x200A),
    (0x2028, 0x2029), (0x202F, 0x202F), (0x205F, 0x205F), (0x3000, 0x3000), (0xFEFF, 0xFEFF)]

  /** `n` lies in one of the ranges. */
  predicate InRanges(n: int, ranges: seq<(int, int)>)
  {
    ranges != [] && (ranges[0].0 <= n <= ranges[0].1 || InRanges(n, ranges[1..]))
  }

  /** The characters `String.prototype.trim` removes. */
  predicate IsWhitespace(c: char)
  {
    InRanges(c as int, WhitespaceRanges)
  }

  /** `s` without its leading white space. */
  function TrimStart(s: string): (r: string)
    ensures |r| <= |s| && r == s[|s| - |r|..]
    ensures forall i :: 0 <= i < |s| - |r| ==> IsWhitespace(s[i])
    ensures r != [] ==> !IsWhitespace(r[0])
  {
    if s != [] && IsWhitespace(s[0]) then TrimStart(s[1..]) else s
  }

  /** `s` without its trailing white space. */
  function TrimEnd(s: string): (r: string)
    ensures |r| <= |s| && r == s[..|r|]
    ensures forall i :: |r| <= i < |s| ==> IsWhitespace(s[i])
    ensures r != [] ==> !IsWhitespace(r[|r| - 1])
  {
    if s != [] && IsWhitespace(s[|s| - 1]) then TrimEnd(s[..|s| - 1]) else s
  }

  /** `s.trim()`: white space removed from both ends, so never longer than `s`. */
  function Trim(s: string): (r: string)
    ensures |r| <= |s|
  {
    TrimEnd(TrimStart(s))
  }

  /** A non-empty trimmed string starts and ends with a character that is not white space. */
  lemma TrimmedEnds(s: string)
    ensures Trim(s) != [] ==> !IsWhitespace(Trim(s)[0]) && !IsWhitespace(Trim(s)[|Trim(s)| - 1])
  {
    if Trim(s) != [] {
      assert Trim(s)[0] == TrimStart(s)[0];
    }
  }

  /** Trimming leaves nothing exactly when the string is blank. */
  lemma TrimBlank(s: string)
    ensures Trim(s) == [] <==> forall i :: 0 <= i < |s| ==> IsWhitespace(s[i])
  {
    var t := TrimStart(s);
    if Trim(s) == [] {
      assert t == [];
    }
    if forall i :: 0 <= i < |s| ==> IsWhitespace(s[i]) {
      BlankTrimsToEmpty(s);
    }
  }

  lemma {:induction false} BlankTrimsToEmpty(s: string)
    requires forall i :: 0 <= i < |s| ==> IsWhitespace(s[i])
    ensures TrimStart(s) == []
  {
    if s != [] {
      assert IsWhitespace(s[0]);
      assert forall i :: 0 <= i < |s[1..]| ==> s[1..][i] == s[i + 1];
      BlankTrimsToEmpty(s[1..]);
    }
  }

  /** The number of white-space characters `trim` removes from the front. */
  function LeadingBlanks(s: string): nat
  {
    |s| - |TrimStart(s)|
  }

  /** Trimming keeps the inner part of the string: a slice of the input. */
  lemma TrimIsSlice(s: string)
    ensures LeadingBlanks(s) + |Trim(s)| <= |s|
    ensures Trim(s) == s[LeadingBlanks(s)..LeadingBlanks(s) + |Trim(s)|]
  {
    var t := TrimStart(s);
    var r := TrimEnd(t);
    PrefixOfSuffix(s, t, r, LeadingBlanks(s));
  }

  /** A prefix of a suffix is a slice. */
  lemma PrefixOfSuffix<T>(s: seq<T>, t: seq<T>, r: seq<T>, i: nat)
    requires i <= |s| && t == s[i..] && |r| <= |t| && r == t[..|r|]
    ensures i + |r| <= |s| && r == s[i..i + |r|]
  {
  }

  /** Everything trimming removes, around that slice, is white space. */
  lemma TrimRemovesOnlyBlanks(s: string)
    ensures forall k :: 0 <= k < LeadingBlanks(s) ==> IsWhitespace(s[k])
    ensures forall k :: LeadingBlanks(s) + |Trim(s)| <= k < |s| ==> IsWhitespace(s[k])
  {
    var t := TrimStart(s);
    BlankTailOfSuffix(s, t, TrimEnd(t), LeadingBlanks(s));
  }

  /** White space after a prefix of a suffix of `s` is white space in `s`. */
  lemma BlankTailOfSuffix(s: string, t: string, r: string, i: nat)
    requires i <= |s| && t == s[i..] && |r| <= |t|
    requires forall j :: |r| <= j < |t| ==> IsWhitespace(t[j])
    ensures forall k :: i + |r| <= k < |s| ==> IsWhitespace(s[k])
  {
    forall k | i + |r| <= k < |s| ensures IsWhitespace(s[k]) {
      assert s[k] == t[k - i];
    }
  }

  predicate IsInteger(x: real)
  {
    x.Floor as real == x
  }

  /** A number that is present and strictly positive. */
  predicate IsPositive(v: Option<real>)
  {
    v.Some? && v.value > 0.0
  }

  /** A number that is present, whole and strictly positive. */
  predicate IsPositiveInteger(v: Option<real>)
  {
    IsPositive(v) && IsInteger(v.value)
  }

  /** `z.number().finite().positive(positive)` on `field`; a missing number fails the type
      check with `missing` and no further rule runs. */
  function NumberIssues(field: string, missing: string, positive: string, v: Option<real>): (r: seq<Issue>)
    ensures r == [] <==> IsPositive(v)
    ensures forall i :: 0 <= i < |r| ==> r[i] in {Issue(field, missing), Issue(field, positive)}
    ensures forall i :: 0 <= i < |r| ==> r[i].path == field
    ensures v.None? ==> r == [Issue(field, missing)]
  {
    match v
    case None => [Issue(field, missing)]
    case Some(x) => if x > 0.0 then [] else [Issue(field, positive)]
  }

  /** `z.number().finite().int(integer).positive(positive)` on `field`: both rules run, so a
      number that is neither whole nor positive gets both issues, the integer one first. */
  function IntegerIssues(field: string, missing: string, integer: string, positive: string, v: Option<real>): (r: seq<Issue>)
    ensures r == [] <==> IsPositiveInteger(v)
    ensures forall i :: 0 <= i < |r| ==> r[i] in {Issue(field, missing), Issue(field, integer), Issue(field, positive)}
    ensures forall i :: 0 <= i < |r| ==> r[i].path == field
    ensures v.None? ==> r == [Issue(field, missing)]
    ensures v.Some? && !IsInteger(v.value) ==> r[0] == Issue(field, integer)
    ensures v.Some? && v.value <= 0.0 ==> r[|r| - 1] == Issue(field, positive)
  {
    match v
    case None => [Issue(field, missing)]
    case Some(x) =>
      (if IsInteger(x) then [] else [Issue(field, integer)])
      + (if x > 0.0 then [] else [Issue(field, positive)])
  }

  /** `preprocessNumber(message)`: one message for a missing or non-positive number. */
  function PreprocessNumber(field: string, message: string, v: Option<real>): (r: seq<Issue>)
    ensures r == [] <==> IsPositive(v)
    ensures forall i :: 0 <= i < |r| ==> r[i] == Issue(field, message)
  {
    NumberIssues(field, message, message, v)
  }

  /** `preprocessInteger(required, positive)`: `required` for a missing or fractional number,
      `positive` for one that is not above zero. */
  function PreprocessInteger(field: string, required: string, positive: string, v: Option<real>): (r: seq<Issue>)
    ensures r == [] <==> IsPositiveInteger(v)
    ensures forall i :: 0 <= i < |r| ==> r[i] in {Issue(field, required), Issue(field, positive)}
    ensures v.Some? && v.value <= 0.0 ==> r[|r| - 1] == Issue(field, positive)
  {
    IntegerIssues(field, required, required, positive, v)
  }

  /** `z.string().trim().min(1, ...).max(32, ...)` on the name. */
  function NameIssues(name: string): (r: seq<Issue>)
    ensures r == [] <==> 1 <= |Trim(name)| <= MaxNameLength
    ensures r == [] || r == [Issue(NameField, NameRequired)] || r == [Issue(NameField, NameTooLong)]
    ensures forall i :: 0 <= i < |r| ==> r[i].path == NameField
    ensures r == [Issue(NameField, NameRequired)] <==> Trim(name) == []
  {
    var n := |Trim(name)|;
    assert |NameRequired| != |NameTooLong|;
    if n < 1 then [Issue(NameField, NameRequired)]
    else if n > MaxNameLength then [Issue(NameField, NameTooLong)]
    else []
  }

  /** The fields of the schema, in declaration order. */
  const FieldOrder := [NameField, CurrentSensField, CurrentDpiField, DesiredDpiField, DpiIncField]

  /** The issues the rule of `field` raises; a name the schema does not declare has no rule. */
  function FieldRuleIssues(v: UserFormValues, field: string): (r: seq<Issue>)
    ensures forall i :: 0 <= i < |r| ==> r[i].path == field && r[i].message != ""
  {
    if field == NameField then NameIssues(v.name)
    else if field == CurrentSensField then NumberIssues(CurrentSensField, Required, CurrentSensPositive, v.currentSens)
    else if field == CurrentDpiField then IntegerIssues(CurrentDpiField, Required, CurrentDpiInteger, CurrentDpiPositive, v.currentDpi)
    else if field == DesiredDpiField then IntegerIssues(DesiredDpiField, Required, DesiredDpiInteger, DesiredDpiPositive, v.desiredDpi)
    else if field == DpiIncField then IntegerIssues(DpiIncField, Required, DpiIncInteger, DpiIncPositive, v.dpiInc)
    else []
  }

  /** What the rule of `field` demands, stated directly. */
  predicate FieldAccepts(v: UserFormValues, field: string)
  {
    if field == NameField then 1 <= |Trim(v.name)| <= MaxNameLength
    else if field == CurrentSensField then IsPositive(v.currentSens)
    else if field == CurrentDpiField then IsPositiveInteger(v.currentDpi)
    else if field == DesiredDpiField then IsPositiveInteger(v.desiredDpi)
    else if field == DpiIncField then IsPositiveInteger(v.dpiInc)
    else true
  }

  /** The schema accepts the values: a name of 1 to 32 characters once trimmed, a positive
      sensitivity, and positive whole DPI values and increment. */
  predicate FormAccepts(v: UserFormValues)
  {
    forall i :: 0 <= i < |FieldOrder| ==> FieldAccepts(v, FieldOrder[i])
  }

  /** The issues the rules of `fields` raise, one field after the other. */
  function FieldsIssues(v: UserFormValues, fields: seq<string>): seq<Issue>
  {
    if fields == [] then [] else FieldRuleIssues(v, fields[0]) + FieldsIssues(v, fields[1..])
  }

  /** The rules of `fields` raise nothing exactly when each of them accepts. */
  lemma {:induction false} FieldsIssuesEmpty(v: UserFormValues, fields: seq<string>)
    ensures FieldsIssues(v, fields) == [] <==> forall i :: 0 <= i < |fields| ==> FieldAccepts(v, fields[i])
  {
    if fields != [] {
      FieldsIssuesEmpty(v, fields[1..]);
      FieldRuleIssuesEmpty(v, fields[0]);
      assert forall i :: 1 <= i < |fields| ==> fields[i] == fields[1..][i - 1];
    }
  }

  /** An accepted form passes every field's rule, declared or not. */
  lemma FormAcceptsAnyField(v: UserFormValues, f: string)
    requires FormAccepts(v)
    ensures FieldAccepts(v, f)
  {
    if f in FieldOrder {
      var i :| 0 <= i < |FieldOrder| && FieldOrder[i] == f;
    }
  }

  /** The five rules written out: a name of 1 to 32 characters once trimmed, a positive
      sensitivity, and positive whole DPI values and increment. */
  lemma FormAcceptsSpelledOut(v: UserFormValues)
    ensures FormAccepts(v) <==>
      && 1 <= |Trim(v.name)| <= MaxNameLength
      && IsPositive(v.currentSens)
      && IsPositiveInteger(v.currentDpi)
      && IsPositiveInteger(v.desiredDpi)
      && IsPositiveInteger(v.dpiInc)
  {
    FieldNamesDistinct();
    assert FieldAccepts(v, FieldOrder[0]) <==> 1 <= |Trim(v.name)| <= MaxNameLength;
    assert FieldAccepts(v, FieldOrder[1]) <==> IsPositive(v.currentSens);
    assert FieldAccepts(v, FieldOrder[2]) <==> IsPositiveInteger(v.currentDpi);
    assert FieldAccepts(v, FieldOrder[3]) <==> IsPositiveInteger(v.desiredDpi);
    assert FieldAccepts(v, FieldOrder[4]) <==> IsPositiveInteger(v.dpiInc);
  }

  /** The issues of `safeParse`, field by field in declaration order. */
  function FormIssues(v: UserFormValues): (r: seq<Issue>)
    ensures r == [] <==> FormAccepts(v)
  {
    FieldsIssuesEmpty(v, FieldOrder);
    FieldsIssues(v, FieldOrder)
  }

  /** The issues attributed to `field`, in order (`issues.filter(i => i.path[0] === field)`). */
  function IssuesFor(issues: seq<Issue>, field: string): (r: seq<Issue>)
    ensures |r| <= |issues|
    ensures forall i :: 0 <= i < |r| ==> r[i].path == field
  {
    if issues == [] then []
    else (if issues[0].path == field then [issues[0]] else []) + IssuesFor(issues[1..], field)
  }

  lemma {:induction false} IssuesForConcat(a: seq<Issue>, b: seq<Issue>, field: string)
    ensures IssuesFor(a + b, field) == IssuesFor(a, field) + IssuesFor(b, field)
  {
    if a == [] {
      assert a + b == b;
    } else {
      assert (a + b)[0] == a[0];
      assert (a + b)[1..] == a[1..] + b;
      IssuesForConcat(a[1..], b, field);
    }
  }

  lemma {:induction false} IssuesForUniform(a: seq<Issue>, owner: string, field: string)
    requires forall i :: 0 <= i < |a| ==> a[i].path == owner
    ensures IssuesFor(a, field) == if owner == field then a else []
  {
    if a != [] {
      IssuesForUniform(a[1..], owner, field);
    }
  }

  /** Over distinct fields, the issues naming `field` are those of its own rule, if listed. */
  lemma {:induction false} FieldsIssuesFor(v: UserFormValues, fields: seq<string>, field: string)
    requires forall i, j :: 0 <= i < j < |fields| ==> fields[i] != fields[j]
    ensures IssuesFor(FieldsIssues(v, fields), field) == if field in fields then FieldRuleIssues(v, field) else []
  {
    if fields != [] {
      var head := FieldRuleIssues(v, fields[0]);
      IssuesForConcat(head, FieldsIssues(v, fields[1..]), field);
      IssuesForUniform(head, fields[0], field);
      assert forall i, j :: 0 <= i < j < |fields[1..]| ==> fields[1..][i] == fields[i + 1] && fields[1..][j] == fields[j + 1];
      FieldsIssuesFor(v, fields[1..], field);
      assert field in fields <==> field == fields[0] || field in fields[1..];
      if field == fields[0] {
        assert field !in fields[1..];
      }
    }
  }

  /** Attribution: the issues of the whole form that name `field` are exactly the issues of
      that field's own rule, with that rule's messages, in the rule's order. */
  lemma FormIssuesFor(v: UserFormValues, field: string)
    ensures IssuesFor(FormIssues(v), field) == FieldRuleIssues(v, field)
  {
    FieldOrderDistinct();
    FieldsIssuesFor(v, FieldOrder, field);
    if field !in FieldOrder {
      assert field != NameField && field != CurrentSensField && field != CurrentDpiField;
      assert field != DesiredDpiField && field != DpiIncField;
    }
  }

  lemma FieldOrderDistinct()
    ensures forall i, j :: 0 <= i < j < |FieldOrder| ==> FieldOrder[i] != FieldOrder[j]
  {
    FieldNamesDistinct();
  }

  lemma FieldNamesDistinct()
    ensures NameField != CurrentSensField && NameField != CurrentDpiField
    ensures NameField != DesiredDpiField && NameField != DpiIncField
    ensures CurrentSensField != CurrentDpiField && CurrentSensField != DesiredDpiField
    ensures CurrentSensField != DpiIncField && CurrentDpiField != DesiredDpiField
    ensures CurrentDpiField != DpiIncField && DesiredDpiField != DpiIncField
  {
    assert |NameField| == 4 && |CurrentSensField| == 11 && |DpiIncField| == 6;
    assert |CurrentDpiField| == 10 && |DesiredDpiField| == 10;
    assert CurrentDpiField[0] != DesiredDpiField[0];
  }

  /** Every issue raised for `fields` names one of them and carries a non-empty message. */
  lemma {:induction false} FieldsIssuesWellFormed(v: UserFormValues, fields: seq<string>)
    ensures forall i :: 0 <= i < |FieldsIssues(v, fields)| ==>
      FieldsIssues(v, fields)[i].path in fields && FieldsIssues(v, fields)[i].message != ""
  {
    if fields != [] {
      var head: seq<Issue> := FieldRuleIssues(v, fields[0]);
      var rest: seq<Issue> := FieldsIssues(v, fields[1..]);
      var all: seq<Issue> := head + rest;
      FieldsIssuesWellFormed(v, fields[1..]);
      forall i | 0 <= i < |all| ensures all[i].path in fields && all[i].message != "" {
        if i < |head| {
          assert all[i] == head[i];
        } else {
          assert all[i] == rest[i - |head|];
          assert rest[i - |head|].path in fields[1..];
        }
      }
    }
  }

  /** Every issue of the form names one of its fields and carries a non-empty message. */
  lemma FormIssuesWellFormed(v: UserFormValues)
    ensures forall i :: 0 <= i < |FormIssues(v)| ==>
      FormIssues(v)[i].path in FieldOrder && FormIssues(v)[i].message != ""
  {
    FieldsIssuesWellFormed(v, FieldOrder);
  }

  /** A field has issues exactly when its rule rejects its value. */
  lemma FieldRuleIssuesEmpty(v: UserFormValues, field: string)
    ensures FieldRuleIssues(v, field) == [] <==> FieldAccepts(v, field)
  {
  }
}
