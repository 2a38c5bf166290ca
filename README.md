# Digital Truth onboarding components, modelled in Dafny

This project models the logic of the onboarding module of Digital Truth
(`onboarding-components.js`): the agent record schema and the
questionnaire form's field table, the record validator, the single-slot
persistence of the finished record, the two label tables and the success
message. The rest of the module is display copy and is not modelled.

Modules:

- `Options` (options.dfy): `Option`, standing for JavaScript's `null`.
- `JsText` (jstext.dfy): `String.prototype.trim` as ECMA-262 defines it
  (white space and line terminators, Unicode "Zs" included).
- `Schema` (schema.dfy): field names, `AGENT_SCHEMA` (kinds, enum value
  sets, required flags, the `genderOther` condition), the FORM screen's
  fields (ids, widget, required flags, option values, the option that opens
  a subfield), `GENDER_LABELS`, `AGE_LABELS`, `SUCCESS_MESSAGE`, and lemmas
  that these tables agree with each other.
- `Validation` (validation.dfy): `Validate`, a method that performs the four
  checks of `validate` in the code's order, proved equal to
  `ExpectedErrors`, a reading of the same rule off the schema (one
  "<name>: required" message per required field that is missing, in schema
  order; a text field is missing when it trims to empty, an enum field when
  it is absent or ""). The lemmas state what the validator does and does
  not check.
- `Storage` (storage.dfy): the `AgentStore` class (a `backendPresent` flag
  and the one `"agentData"` slot) with `Save`, `Load` and `Clear`, the
  `Stamp` function that `Save` applies, and three client methods showing the
  save/load/clear round trips.

A record is a `map<string, string>` from field name to value: a missing key
is an absent (undefined) field, and `""` is the only falsy string. Time is
an argument of `Save`. JSON serialisation of a string-valued record followed
by parsing gives back the same record, so the slot stores records directly.

One might expect `validate` never to throw, but the code calls
`.trim()` on any truthy callsign, so a non-string callsign would throw
rather than be reported; the model has string fields only.

## Model

| member | source | states |
|---|---|---|
| `JsText.IsJsWhitespace` | onboarding-components.js:223 | the characters `trim` strips: ECMAScript WhiteSpace (TAB, VT, FF, SP, NBSP, ZWNBSP, Unicode Zs) and LineTerminator (LF, CR, LS, PS) |
| `JsText.Trim` | onboarding-components.js:223 | the result is a slice `s[lo..hi]` with only white space before `lo` and after `hi`, neither starting nor ending with white space, so exactly `s` with leading and trailing white space removed; empty exactly when `s` is all white space |
| `Schema.AgentSchema` | onboarding-components.js:10-23 | the twelve schema fields in order, with their kinds, maximum lengths, enum value lists, required flags and the `genderOther` condition |
| `Schema.FormFields` | onboarding-components.js:48-179 | the ten form fields in order, with their widget, required flag, option values and the option that opens a subfield |
| `Schema.GenderLabels` | onboarding-components.js:266-272 | the gender label table |
| `Schema.AgeLabels` | onboarding-components.js:274-280 | the age label table |
| `Validation.Truthy` | onboarding-components.js:223-232 | JavaScript truthiness of a string field: absent (undefined) and "" are falsy, every other string truthy |
| `Schema.SchemaRequiredFields` | onboarding-components.js:10-23 | the schema's required fields are callsign, gender, age, region, in that order |
| `Schema.FormRequiredFields` | onboarding-components.js:48-179 | the form's required fields are callsign, gender, age, region, in that order |
| `Schema.FormRequiredMatchesSchema` | onboarding-components.js:10-179 | every form field is a schema field with the same required flag |
| `Schema.FormOptionsMatchSchema` | onboarding-components.js:12-179 | every enum field of the schema is a form field offering exactly its declared values, in order |
| `Schema.SubfieldMatchesCondition` | onboarding-components.js:13-68 | gender offers "other" and choosing it opens a subfield; no other form field has one; and every subfield's opening condition is exactly the schema's visibility condition of `genderOther` (shown when gender is "other") |
| `Schema.LabelKeysAreEnumValues` | onboarding-components.js:266-280 | the keys of the gender and age label tables are exactly the declared gender and age values |
| `Schema.SuccessMessage` | onboarding-components.js:282 | the message is the fixed prefix, the callsign verbatim, then "!" |
| `Schema.CallsignOfMessage` | onboarding-components.js:282 | a string has the message's shape exactly when it is the success message of the callsign read back from it |
| `Schema.SuccessMessageRoundTrip` | onboarding-components.js:282 | the callsign read back from its success message is the callsign itself |
| `Schema.SuccessMessageInjective` | onboarding-components.js:282 | different callsigns give different messages (nothing is escaped or dropped) |
| `Validation.Validate` | onboarding-components.js:220-237 | the error list is the schema-driven expected list, and `valid` holds exactly when it is empty |
| `Validation.ExpectedErrorsByField` | onboarding-components.js:221-235 | the schema-driven list is the callsign, gender, age and region checks, each adding its message, in that order |
| `Validation.ErrorsSubsequence` | onboarding-components.js:221-235 | the messages are always a subsequence of callsign, gender, age, region |
| `Validation.ErrorsInCheckOrder` | onboarding-components.js:221-235 | at most four messages, none repeated, always a subsequence of callsign, gender, age, region |
| `Validation.EmptyRecordFailsAll` | onboarding-components.js:221-235 | an empty record yields all four messages, in order |
| `Validation.CheckedFieldsAreRequired` | onboarding-components.js:11-234 | the four checked fields are exactly the schema's required fields and the form's required fields, in the same order, and each message names its field |
| `Validation.CallsignErrorIff` | onboarding-components.js:223-225 | the callsign message appears exactly when the callsign is absent, empty or white space only |
| `Validation.FalsyErrorIff` | onboarding-components.js:226-234 | the gender, age and region messages appear exactly when that field is absent or "" |
| `Validation.PassesIff` | onboarding-components.js:223-236 | a record passes exactly when its callsign has a non-white-space character and gender, age, region are non-empty, whatever their values |
| `Validation.EnumMembershipNotChecked` | onboarding-components.js:226-234 | an example of what `PassesIff` shows in general: a record with gender, age and region outside their declared sets and a callsign longer than the schema's 32-character limit passes |
| `Validation.EmptyStringIsAbsent` | onboarding-components.js:223-234 | a field set to "" gives the same result as the field left out |
| `Validation.UncheckedFieldsIgnored` | onboarding-components.js:220-237 | setting or removing any field other than the four checked ones never changes the result |
| `Validation.CompleteRecordPasses` | onboarding-components.js:220-237 | the record Nova / female / 18-25 / russia passes |
| `Storage.Stamp` | onboarding-components.js:241-244 | the stamped record has `completedAt` equal to the given time, the input's other fields unchanged, and no other new field |
| `Storage.StampTwice` | onboarding-components.js:241-244 | a caller-supplied `completedAt` is overwritten: stamping twice equals stamping once with the later time |
| `Storage.StampOnlyChangesTime` | onboarding-components.js:241-244 | two saves of the same record differ only in `completedAt` |
| `Storage.StampKeepsVerdict` | onboarding-components.js:241-244 | stamping a record does not change what the validator reports |
| `Storage.AgentStore.Load` | onboarding-components.js:251-257 | the slot's record when a backend is present, none otherwise |
| `Storage.AgentStore.Save` | onboarding-components.js:240-249 | returns the stamped record; with a backend the slot then holds exactly it, without one the slot is unchanged; a following load returns it or none |
| `Storage.AgentStore.Clear` | onboarding-components.js:259-263 | with a backend the slot becomes empty, without one it is unchanged; a following load returns none |
| `Storage.SaveThenLoad` | onboarding-components.js:240-257 | with a backend, load after save returns what save returned, which agrees with the input except for `completedAt` |
| `Storage.ClearThenLoad` | onboarding-components.js:251-263 | with a backend, load after clear and load from an empty slot both return none |
| `Storage.WithoutBackend` | onboarding-components.js:240-263 | without a backend, save still returns the stamped record and load returns none |

## Left out

- The display copy of the screens (titles, help texts, placeholders, option labels, the consent screen and the privacy policy): literal strings with no behaviour; only field ids, widgets, required flags and option values are kept.
- The consent checkboxes' required flags (lines 191-200): the module never checks them.
- The real `localStorage` API and the `typeof` probes for it and for `module`: replaced by `AgentStore` and its `backendPresent` flag; the `module.exports` block is not modelled.
- `new Date().toISOString()`: the time is an argument of `Save`, and nothing is claimed about its format or about later saves carrying later times.
- `JSON.stringify`/`JSON.parse`: treated as identity on string-valued records; parsing stored text that this module did not write is not modelled.
- Non-string field values (numbers, objects, `true`): fields are strings, so the exception `.trim()` raises on a non-string callsign is not modelled.
- `validate(null)` and `validate(undefined)`: reading `data.callsign` throws a TypeError; the model's record is always a map, so this exception is not modelled.
- JavaScript strings are UTF-16 code units, Dafny strings Unicode scalar values; every white space character `trim` removes is a single code unit, so the callsign check agrees, but lone surrogates are not representable.
- Concurrent use of the storage key from several browser tabs.
- The evaluation of the `genderOther` condition and screen-to-screen navigation: done by the user interface, not by this module.
- `UPDATE_CASES.py`, `find_duplicates_check.py` and `verify-translations.py`: scripts that rewrite or scan files with regular expressions or only print lists; they are not part of this model.
