# cs2maxdpiWeb sensitivity/DPI core in Dafny

This project models the core of a small web tool for Counter-Strike players. The player enters
an original in-game sensitivity, their current mouse DPI, a desired DPI and a DPI step. The tool
lists DPI values and the sensitivity that keeps the same eDPI (sensitivity × DPI) at each of
them. It keeps only sensitivities that the game accepts, which means at most two decimals.

Modelled:

- `generateSensDpiPairs` (`dpiCalc.ts`, module `DpiCalc`). It validates its input with
  `dpiParamsSchema` and throws the first issue's message. Otherwise it walks
  `dpi = currentDpi, currentDpi + step, …` while `dpi <= desiredDpi + 2 * step`, and keeps
  `(eDPI / dpi, dpi)` whenever that sensitivity has at most two decimals. The method keeps the
  source's loop and is proved equal to the function `Generate`.
- The two older copies, `dpiTest.ts` (`LegacyDpi`) and `dpi_test.ts` (`LegacyDpiStandalone`).
  Both check only for null inputs and a non-positive step before running the same loop.
- All three loops share one specification, `DpiLoop.KeptPairs`. It is proved sound, complete,
  strictly ascending and bounded in length.
- `dpiParamsSchema` (`DpiSchema`) and `userFormSchema` (`UserFormSchema`). Each is a list of
  issues in field order, empty exactly when the values are accepted.
- The `UserFormStore` class (`UserFormStores.UserFormStore`). It holds the five inputs, the
  per-field error messages, the submit lock and the submit error. It has the setters,
  `validateField`, `validateForm`, `canSubmit`, `submitForm` and `reset`.

Conventions:

- A JavaScript number is a `real`, `null` is `Option.None`, and a thrown `Error` is
  `Result.Throws(message)`.
- "At most two decimals" is `AtMostTwoDecimals`: the value times 100 is a whole number.
- In `fieldErrors`, a key that is absent stands for `undefined`.

Observations:

- The loop bound is `desiredDpi + 2 * step` (`dpiCalc.ts:18`). So for sensitivity 1 at 800
  DPI, desired DPI 1600 and step 400, the candidates are 800, 1200, 1600, 2000 and 2400, not
  just the first four. 1200 and 2400 are dropped, which leaves `[800, 1600, 2000]`.
- The form schema rejects a blank name (`userFormSchema.ts:6`), even though the comment above
  it and the form's placeholder call the name not required. The model follows the schema
  (`BlankNameRejected`).
- The loop adds the step to a double. Once `dpi` is at least 2^53 and the step is small, as in
  `currentDpi = desiredDpi = 1e17` with step 1, `dpi += step` leaves `dpi` unchanged and the
  loop never ends. This is read from the source, not executed; the model's loop over exact
  numbers ends.
- `validateField` records the first issue of its field and `validateForm` the last. A DPI such
  as -0.5 breaks two rules, so the two methods show different messages for it
  (`FindKeepsFirstForEachKeepsLast`).

## Model

| member | source | states |
|---|---|---|
| CalcTypes.AtMostTwoDecimalsIsHundredths | frontend/src/utils/dpiCalc.ts:24-25 | a sensitivity passes the two-decimal test exactly when it is a whole number of hundredths |
| DpiLoop.PairKeepsEdpi | frontend/src/utils/dpiCalc.ts:22 | the sensitivity computed for a DPI, multiplied by that DPI, gives back the eDPI |
| DpiLoop.RemainingDecreases | frontend/src/utils/dpiCalc.ts:21 | with a positive step, each iteration lowers the loop's remaining-steps measure by at least one without it going negative, so the loop ends |
| DpiLoop.KeptPairsAscendingInRange | frontend/src/utils/dpiCalc.ts:21-30 | every kept DPI lies between the start and the bound, and the kept DPIs strictly increase |
| DpiLoop.KeptPairs | frontend/src/utils/dpiCalc.ts:21-30 | every pair the loop keeps has a sensitivity with at most two decimals |
| DpiLoop.KeptPairsKeepEdpi | frontend/src/utils/dpiCalc.ts:21-30 | every kept pair's sensitivity times its DPI gives back the eDPI, and the sensitivity has at most two decimals |
| DpiLoop.KeptPairsOnGrid | frontend/src/utils/dpiCalc.ts:21-30 | every kept DPI is a candidate `start + k * step` between the start and the bound |
| DpiLoop.KeptPairsSound | frontend/src/utils/dpiCalc.ts:21-30 | every kept pair is the pair of some candidate `start + k * step` that is within the bound and has at most two decimals |
| DpiLoop.KeptPairsComplete | frontend/src/utils/dpiCalc.ts:21-30 | every candidate within the bound whose sensitivity has at most two decimals is kept |
| DpiLoop.KeptPairsMember | frontend/src/utils/dpiCalc.ts:21-30 | a pair is kept if and only if it belongs to a candidate within the bound with at most two decimals |
| DpiLoop.KeptPairsLength | frontend/src/utils/dpiCalc.ts:21-30 | at most one pair is kept per loop iteration |
| UserFormSchema.TrimStart | frontend/src/schemas/userFormSchema.ts:6 | the result is a suffix of the input, everything removed is white space, and the result does not start with white space |
| UserFormSchema.TrimEnd | frontend/src/schemas/userFormSchema.ts:6 | the result is a prefix of the input, everything removed is white space, and the result does not end with white space |
| UserFormSchema.TrimBlank | frontend/src/schemas/userFormSchema.ts:6 | the trimmed name is empty exactly when the name is all white space |
| UserFormSchema.Trim | frontend/src/schemas/userFormSchema.ts:6 | the trimmed name is never longer than the name |
| UserFormSchema.TrimmedEnds | frontend/src/schemas/userFormSchema.ts:6 | a non-empty trimmed name starts and ends with a character that is not white space |
| UserFormSchema.PreprocessNumber | frontend/src/schemas/dpiSchema.ts:2 | no issue exactly when the number is present and positive; every issue is on the field with its one message |
| UserFormSchema.PreprocessInteger | frontend/src/schemas/dpiSchema.ts:2 | no issue exactly when the number is present, whole and positive; every issue carries one of its two messages, and a non-positive number's last issue is the positive message |
| UserFormSchema.TrimIsSlice | frontend/src/schemas/userFormSchema.ts:6 | the trimmed name is a contiguous slice of the name |
| UserFormSchema.TrimRemovesOnlyBlanks | frontend/src/schemas/userFormSchema.ts:6 | everything outside that slice is white space |
| UserFormSchema.NameIssues | frontend/src/schemas/userFormSchema.ts:6 | no issue exactly when the trimmed name has 1 to 32 characters; otherwise exactly one issue on `name`, "Name is required" exactly when the trimmed name is empty, else "Name too long" |
| UserFormSchema.NumberIssues | frontend/src/schemas/userFormSchema.ts:7 | no issue exactly when the number is present and positive; a missing number gives only the "Required" issue; every issue is on the field and carries one of its two messages |
| UserFormSchema.IntegerIssues | frontend/src/schemas/userFormSchema.ts:8-10 | no issue exactly when the number is present, whole and positive; a missing number gives only "Required"; a fractional number's first issue is the integer message; a non-positive number's last issue is the positive message |
| UserFormSchema.FieldRuleIssues | frontend/src/schemas/userFormSchema.ts:6-10 | every issue of a field's rule is on that field and has a non-empty message |
| UserFormSchema.FieldRuleIssuesEmpty | frontend/src/schemas/userFormSchema.ts:6-10 | a field's rule raises nothing exactly when it accepts the field's value |
| UserFormSchema.FieldsIssuesEmpty | frontend/src/schemas/userFormSchema.ts:4-11 | the rules of a list of fields raise nothing exactly when each rule accepts |
| UserFormSchema.FormAcceptsSpelledOut | frontend/src/schemas/userFormSchema.ts:4-11 | the form, accepted when each of its five declared fields is, is accepted exactly when the trimmed name has 1 to 32 characters, the sensitivity is positive and the three DPI values are positive whole numbers |
| UserFormSchema.FormAcceptsAnyField | frontend/src/schemas/userFormSchema.ts:4-11 | an accepted form passes the rule of every field, declared or not |
| UserFormSchema.FormIssues | frontend/src/schemas/userFormSchema.ts:4-11 | `safeParse` fails exactly when the values break one of the five rules |
| UserFormSchema.IssuesFor | frontend/src/mobxStore/userFormStores.ts:70 | keeps only the issues whose path is the given field, and never more issues than it was given |
| UserFormSchema.FieldsIssuesFor | frontend/src/schemas/userFormSchema.ts:4-11 | over distinct fields, the issues that name a field are exactly that field's own rule's issues, in order |
| UserFormSchema.FormIssuesFor | frontend/src/schemas/userFormSchema.ts:4-11 | the form's issues that name a field are exactly that field's rule's issues, with its messages, in its order |
| UserFormSchema.FieldsIssuesWellFormed | frontend/src/schemas/userFormSchema.ts:4-11 | every issue names one of the listed fields and has a non-empty message |
| UserFormSchema.FormIssuesWellFormed | frontend/src/schemas/userFormSchema.ts:4-11 | every issue of the form names one of its five fields and has a non-empty message |
| DpiSchema.ParamIssues | frontend/src/schemas/dpiSchema.ts:4-18 | no issue exactly when the sensitivity is present and positive and the three DPI values are present, whole and positive |
| DpiSchema.SafeParse | frontend/src/schemas/dpiSchema.ts:4-18 | success exactly when the parameters are accepted; a failure carries the non-empty issue list; success carries the same values, the DPI values as positive whole numbers |
| DpiSchema.FirstIssue | frontend/src/schemas/dpiSchema.ts:4-18 | the first issue belongs to the first failing field in declaration order: the "required" message for a missing or fractional DPI value, the "greater than 0" message for one that is not positive |
| DpiSchema.ParamIssuesHaveMessages | frontend/src/schemas/dpiSchema.ts:5-17 | every issue has a non-empty message |
| DpiCalc.ThrowMessage | frontend/src/utils/dpiCalc.ts:11 | the thrown message is never empty, and it is the first issue's message whenever that message is not empty |
| DpiCalc.Generate | frontend/src/utils/dpiCalc.ts:7-33 | throws exactly when the schema rejects the parameters, always with a non-empty message |
| DpiCalc.GenerateSensDpiPairs | frontend/src/utils/dpiCalc.ts:7-33 | the loop over whole DPI values returns exactly the table that `Generate` specifies, or throws its message |
| DpiCalc.GenerateThrowsIffRejected | frontend/src/utils/dpiCalc.ts:8-12 | throws exactly when the schema rejects the parameters, with the first issue's message |
| DpiCalc.TableRowsOnGrid | frontend/src/utils/dpiCalc.ts:18-21 | every row of the table for validated values lies between `currentDpi` and the bound and is the whole number `currentDpi + k * interval` |
| DpiCalc.GenerateRowsOnGrid | frontend/src/utils/dpiCalc.ts:18-21 | every returned DPI lies between `currentDpi` and `desiredDpi + 2 * interval`, is whole, and is `currentDpi + k * interval` for some k |
| DpiCalc.GenerateRowsKeepEdpi | frontend/src/utils/dpiCalc.ts:16-28 | every returned row has `inGameSens * dpi == orgSens * currentDpi` and a sensitivity with at most two decimals |
| DpiCalc.GenerateAscending | frontend/src/utils/dpiCalc.ts:21 | the returned DPI values strictly increase |
| DpiCalc.GenerateKeepsEveryTwoDecimalCandidate | frontend/src/utils/dpiCalc.ts:21-28 | for accepted parameters, every candidate DPI within the bound whose sensitivity has at most two decimals is returned |
| DpiCalc.GenerateEmptyPastEnd | frontend/src/utils/dpiCalc.ts:18-21 | a start beyond the bound gives an empty table, not an error |
| DpiCalc.GenerateLength | frontend/src/utils/dpiCalc.ts:18-30 | the table has at most `(end - currentDpi) / interval + 1` rows |
| DpiCalc.WholeSensitivityExample | frontend/src/test/dpi.test.tsx:66-81 | 1 at 800 DPI, desired 1600, step 400 gives `[(1, 800), (0.5, 1600), (0.4, 2000)]` |
| DpiCalc.FractionalSensitivityExample | frontend/src/test/dpi.test.tsx:83-95 | 1.23 at 1000 DPI, desired 1500, step 250 gives `[(1.23, 1000), (0.82, 1500)]` |
| DpiCalc.EmptyRangeExample | frontend/src/utils/dpiCalc.ts:21 | a current DPI above the bound gives an empty table |
| DpiCalc.RejectionExamples | frontend/src/test/dpi.test.tsx:6-64 | a null input, a step of 0 or -100, a negative value and a fractional DPI each throw, with the exact message |
| LegacyDpi.Generate | frontend/src/utils/dpiTest.ts:6-41 | throws exactly when an input is null or the step is not positive, and only with one of its two messages |
| LegacyDpi.GenerateSensDpiPairs | frontend/src/utils/dpiTest.ts:6-41 | the loop over real DPI values returns exactly the table `LegacyDpi.Generate` specifies, or throws its message |
| LegacyDpi.GenerateThrowsOnlyOnChecks | frontend/src/utils/dpiTest.ts:10-21 | throws exactly when an input is null ("Invalid input parameters") or the step is not positive ("dpiAcceptableInterval must be > 0") |
| LegacyDpi.WeakerThanSchema | frontend/src/utils/dpiTest.ts:10-21 | a negative sensitivity and a fractional DPI pass this version's checks but are rejected by the validating version |
| LegacyDpi.GenerateRowsSound | frontend/src/utils/dpiTest.ts:24-38 | every returned row is in range, on the grid, keeps the eDPI and has at most two decimals |
| LegacyDpi.GenerateAscending | frontend/src/utils/dpiTest.ts:29 | the returned DPI values strictly increase |
| LegacyDpi.AgreesWithValidatingVersion | frontend/src/utils/dpiTest.ts:23-40 | on parameters the schema accepts, this version returns the same table as `dpiCalc.ts` |
| LegacyDpiStandalone.GenerateSensDpiPairs | frontend/src/utils/dpi_test.ts:16-51 | the copy with its own local types returns exactly what `LegacyDpi.Generate` specifies |
| UserFormStores.FirstMessage | frontend/src/mobxStore/userFormStores.ts:70 | a message that is found is the message of an issue on that field |
| UserFormStores.FirstMessageFinds | frontend/src/mobxStore/userFormStores.ts:70 | `find` returns the message of the first issue that names the field, or nothing if there is none |
| UserFormStores.ErrorMap | frontend/src/mobxStore/userFormStores.ts:92-96 | every entry of the map is the message of an issue on that entry's field |
| UserFormStores.CollectErrors | frontend/src/mobxStore/userFormStores.ts:92-96 | the `forEach` loop builds exactly `ErrorMap` of the issues |
| UserFormStores.ErrorMapStep | frontend/src/mobxStore/userFormStores.ts:93-96 | one `forEach` step overwrites the entry of the issue's field with its message |
| UserFormStores.ErrorMapKeepsLast | frontend/src/mobxStore/userFormStores.ts:92-97 | the map built by `forEach` has an entry exactly for the fields with issues, holding the last of them |
| UserFormStores.FormErrorsPerField | frontend/src/mobxStore/userFormStores.ts:88-98 | after `validateForm`, a field has an entry exactly when its rule fails; the entry is that rule's last, non-empty message |
| UserFormStores.FormErrorsAll | frontend/src/mobxStore/userFormStores.ts:88-98 | the same for all fields at once: the error map's keys are exactly the failing fields |
| UserFormStores.ValidateFieldRecords | frontend/src/mobxStore/userFormStores.ts:68-75 | after recording the first message of a field, the field has an entry exactly when its rule fails, holding that rule's first message, and no entry is empty |
| UserFormStores.FieldErrorPerField | frontend/src/mobxStore/userFormStores.ts:66-73 | `validateField(field)` finds a message exactly when the field's own rule fails, and it is that rule's first, non-empty message |
| UserFormStores.FindKeepsFirstForEachKeepsLast | frontend/src/mobxStore/userFormStores.ts:66-97 | for current DPI -0.5, `validateField` shows "Current DPI must be an integer" and `validateForm` shows "Current DPI must be > 0" |
| UserFormStores.BlankNameRejected | frontend/src/schemas/userFormSchema.ts:6 | a blank name makes the form invalid and `validateForm` records "Name is required" for it |
| UserFormStores.Payload | frontend/src/mobxStore/userFormStores.ts:131-136 | the form is accepted exactly when the generator's schema accepts the payload and the name has 1 to 32 characters once trimmed |
| UserFormStores.FormAcceptedHasNumbers | frontend/src/mobxStore/userFormStores.ts:106-116 | an accepted form has all four numbers that `canSubmit` requires |
| UserFormStores.AcceptedFormNeverThrows | frontend/src/mobxStore/userFormStores.ts:129-138 | values the form schema accepts also pass `dpiParamsSchema`, so the generator returns a table and does not throw |
| UserFormStores.UserFormStore.constructor | frontend/src/mobxStore/userFormStores.ts:7-19 | empty name, all numbers null, unlocked, no submit error, no field errors |
| UserFormStores.UserFormStore.SetName | frontend/src/mobxStore/userFormStores.ts:21-27 | sets the name and clears the name's error; nothing else changes |
| UserFormStores.UserFormStore.SetCurrentSens | frontend/src/mobxStore/userFormStores.ts:29-34 | sets the sensitivity and clears its error; nothing else changes |
| UserFormStores.UserFormStore.SetCurrentDpi | frontend/src/mobxStore/userFormStores.ts:36-41 | sets the current DPI and clears its error; nothing else changes |
| UserFormStores.UserFormStore.SetDesiredDpi | frontend/src/mobxStore/userFormStores.ts:43-48 | sets the desired DPI and clears its error; nothing else changes |
| UserFormStores.UserFormStore.SetDpiInc | frontend/src/mobxStore/userFormStores.ts:50-55 | sets the DPI increment and clears its error; nothing else changes |
| UserFormStores.UserFormStore.ValidateField | frontend/src/mobxStore/userFormStores.ts:57-77 | returns whether the whole form is valid; only the named field's entry changes; it is present exactly when that field's rule fails, and then holds the rule's first message |
| UserFormStores.UserFormStore.ValidateForm | frontend/src/mobxStore/userFormStores.ts:79-104 | returns whether the form is valid; the error map becomes the last message per failing field, with a key for exactly the failing fields; on success it is empty and `canSubmit` reduces to "not locked" |
| UserFormStores.UserFormStore.CanSubmit | frontend/src/mobxStore/userFormStores.ts:106-116 | true exactly when no error is recorded, the store is unlocked and all four numbers the generator needs are present; then the payload has all four |
| UserFormStores.UserFormStore.SubmitForm | frontend/src/mobxStore/userFormStores.ts:118-150 | the inputs are unchanged and the errors are those of `validateForm`; an invalid form or a held lock leaves the lock and the submit error alone; otherwise the lock ends released and the submit error is the generator's thrown message, which is none |
| UserFormStores.UserFormStore.Reset | frontend/src/mobxStore/userFormStores.ts:152-161 | back to the initial state |

## Left out

- NaN and ±Infinity are not modelled. Numbers are finite reals, because the form turns anything non-finite into `null`, so zod's `.finite()` never fires.
- Binary floating point is not modelled. The two-decimal test is exact on reals, while the source checks `toString()` of an IEEE double. A quotient whose double prints with extra digits, the way `0.1 + 0.2` prints as `0.30000000000000004`, would be dropped by the source but kept here. The legacy loops' `dpi += step` is exact here, not rounded.
- Exponent notation is not modelled. JavaScript prints numbers below 1e-6 or at or above 1e21 in exponent form, without a "." (`1e-7`) or with the "." before the exponent (`1.5e+21`), so the source's split on "." judges the printed form, not the number. For sensitivity 1e-7 at DPI 1, desired 1 and step 1 the source returns `[(1e-7, 1), (5e-8, 2)]`, while the model returns no rows.
- DPI values at or above 2^53 are not modelled as doubles. There `dpi += step` can stop advancing, so the source's loop may not end, while the model's loop over exact numbers always ends.
- String length is counted in characters, not in UTF-16 code units, so a name with characters outside the Basic Multilingual Plane is measured differently.
- `preprocessNumber`, `preprocessInteger` and `transformStoreValuesToZod` are imported from `userFormSchema.ts` but not defined in it, so they are not part of this model. The model assumes:
  - `preprocessNumber` gives its one message for a missing or non-positive number;
  - `preprocessInteger` gives its first message for a missing or fractional number and its second for a non-positive one;
  - `transformStoreValuesToZod` turns a `null` number into `undefined`, so a missing number gets zod's default "Required". zod reports a `null` itself as "Expected number, received null", which the model does not produce.
- zod's issue ordering is assumed, not derived from the library: fields in declaration order, and both `.int()` and `.positive()` reported, the integer issue first.
- LegacyDpi.Generate: requires `currentDpi > 0` once the checks pass, because the shared loop specification `KeptPairs` is defined for positive DPI values only. A zero start, or a negative start whose steps land on 0, divides by zero and produces Infinity or NaN. Any other negative start yields rows with negative DPI values, for example start -850 with step 100, or start -800 with desired DPI -1000. Neither case is modelled.
- LegacyDpi.GenerateSensDpiPairs: same requirement, for the same reasons.
- LegacyDpiStandalone.GenerateSensDpiPairs: same requirement, for the same reasons. Its local `DpiParams` and `SensDpiPair` interfaces have the same shape as the shared ones, which are reused.
- UserFormStores.UserFormStore.SubmitForm: the `async` function is modelled as one synchronous call. `console.log` of the response is left out, and so is the `String(error)` branch for non-`Error` throws, which the generator never takes.
- The setters write `undefined` into `fieldErrors` where the model deletes the key. Nothing in the store tells the two apart, because `canSubmit` ignores `undefined` entries.
- The setters test whether the message is truthy. The store invariant `Valid` keeps every recorded message non-empty, so that test is the same as the key being present.
- MobX observability (`makeAutoObservable`, `runInAction`), the React components, `uiStore`, `rootStore`, the store context and the error-message helper are not part of this model.
