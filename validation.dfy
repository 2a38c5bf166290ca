/**
 * The onboarding record validator. `Validate` follows the code step by
 * step (four checks, each appending one message); `ExpectedErrors` reads
 * the same check off the schema: one "<name>: required" message for every
 * required field that is missing, in schema order.
 */
module Validation {
  import opened Schema
  import opened JsText

  /** What the validator returns: `{ valid, errors }`. */
  datatype Verdict = Verdict(valid: bool, errors: seq<string>)

  /** JavaScript truthiness of `r[name]` for a string field: an absent
      field (undefined) and "" are falsy, every other string is truthy. */
  predicate Truthy(r: Record, name: string) {
    name in r && r[name] != ""
  }

  function RequiredMessage(name: string): string {
    name + ": required"
  }

  /** A required field is missing when it is falsy; a text field also when
      it trims to the empty string. */
  predicate Missing(r: Record, f: FieldSpec) {
    !Truthy(r, f.name) || (f.kind.Text? && |Trim(r[f.name])| == 0)
  }

  /** The message for `f` if it is required and missing, else nothing. */
  function ErrorFor(r: Record, f: FieldSpec): seq<string> {
    if f.required && Missing(r, f) then [RequiredMessage(f.name)] else []
  }

  /** Messages for the fields of `schema[from..]`, in schema order. */
  function RequiredErrorsFrom(r: Record, schema: seq<FieldSpec>, from: nat): (errs: seq<string>)
    requires from <= |schema|
    ensures |errs| <= |schema| - from
    decreases |schema| - from
  {
    if from == |schema| then [] else ErrorFor(r, schema[from]) + RequiredErrorsFrom(r, schema, from + 1)
  }

  /** The error list the agent schema calls for on record `r`. */
  function ExpectedErrors(r: Record): seq<string> {
    RequiredErrorsFrom(r, AgentSchema, 0)
  }

  /** The callsign check: absent, "" or white space only. */
  predicate CallsignBlank(r: Record) {
    Callsign !in r || AllWhitespace(r[Callsign])
  }

  // ---------- The validator ----------

  /** `validate(data)`: one message per failed check, in the order
      callsign, gender, age, region; valid exactly when there is none. */
  method Validate(r: Record) returns (v: Verdict)
    ensures v.errors == ExpectedErrors(r)
    ensures v.valid <==> v.errors == []
  {
    var errors: seq<string> := [];
    if !Truthy(r, Callsign) || |Trim(r[Callsign])| == 0 {
      errors := errors + ["callsign: required"];
    }
    if Callsign in r {
      TrimEmptyIffWhitespace(r[Callsign]);
    }
    ghost var e0 := errors;
    assert e0 == When(CallsignBlank(r), "callsign: required");
    if !Truthy(r, Gender) {
      errors := errors + ["gender: required"];
    }
    ghost var e1 := errors;
    assert e1 == e0 + When(!Truthy(r, Gender), "gender: required");
    if !Truthy(r, Age) {
      errors := errors + ["age: required"];
    }
    ghost var e2 := errors;
    assert e2 == e1 + When(!Truthy(r, Age), "age: required");
    if !Truthy(r, Region) {
      errors := errors + ["region: required"];
    }
    assert errors == e2 + When(!Truthy(r, Region), "region: required");
    ExpectedErrorsByField(r);
    v := Verdict(|errors| == 0, errors);
  }

  // ---------- What the schema-driven reading amounts to ----------

  /** Optional single message. */
  function When(c: bool, m: string): seq<string> {
    if c then [m] else []
  }

  /** Unrolled over the agent schema, the expected errors are the four
      checks of the code, in its order. */
  lemma ExpectedErrorsByField(r: Record)
    ensures ExpectedErrors(r) ==
      When(CallsignBlank(r), "callsign: required") +
      When(!Truthy(r, Gender), "gender: required") +
      When(!Truthy(r, Age), "age: required") +
      When(!Truthy(r, Region), "region: required")
  {
    FourChecks(r, AgentSchema);
  }

  /** Any schema laid out like the agent schema (callsign text, gender, an
      optional field, age, region, then only optional fields) yields the
      four checks. */
  lemma FourChecks(r: Record, s: seq<FieldSpec>)
    requires |s| >= 5
    requires s[0].name == Callsign && s[0].required && s[0].kind.Text?
    requires s[1].name == Gender && s[1].required && s[1].kind.Enum?
    requires !s[2].required
    requires s[3].name == Age && s[3].required && s[3].kind.Enum?
    requires s[4].name == Region && s[4].required && s[4].kind.Enum?
    requires forall i :: 5 <= i < |s| ==> !s[i].required
    ensures RequiredErrorsFrom(r, s, 0) ==
      When(CallsignBlank(r), "callsign: required") +
      When(!Truthy(r, Gender), "gender: required") +
      When(!Truthy(r, Age), "age: required") +
      When(!Truthy(r, Region), "region: required")
  {
    NoErrorsFromOptional(r, s, 5);
    var e0, e1, e3, e4 := ErrorFor(r, s[0]), ErrorFor(r, s[1]), ErrorFor(r, s[3]), ErrorFor(r, s[4]);
    assert RequiredErrorsFrom(r, s, 4) == e4;
    assert RequiredErrorsFrom(r, s, 3) == e3 + e4;
    assert RequiredErrorsFrom(r, s, 2) == e3 + e4;
    assert RequiredErrorsFrom(r, s, 1) == e1 + (e3 + e4);
    assert RequiredErrorsFrom(r, s, 0) == e0 + (e1 + (e3 + e4));
    assert e0 + (e1 + (e3 + e4)) == e0 + e1 + e3 + e4;
    CallsignCheck(r, s[0]);
    FalsyCheck(r, s[1]);
    FalsyCheck(r, s[3]);
    FalsyCheck(r, s[4]);
  }

  /** A required text entry named callsign yields exactly the callsign check. */
  lemma CallsignCheck(r: Record, f: FieldSpec)
    requires f.name == Callsign && f.required && f.kind.Text?
    ensures ErrorFor(r, f) == When(CallsignBlank(r), "callsign: required")
  {
    assert RequiredMessage(Callsign) == "callsign: required";
    if Callsign in r {
      TrimEmptyIffWhitespace(r[Callsign]);
    }
  }

  /** A required enum entry yields exactly the truthiness check. */
  lemma FalsyCheck(r: Record, f: FieldSpec)
    requires f.required && f.kind.Enum?
    ensures ErrorFor(r, f) == When(!Truthy(r, f.name), RequiredMessage(f.name))
    ensures f.name == Gender ==> ErrorFor(r, f) == When(!Truthy(r, Gender), "gender: required")
    ensures f.name == Age ==> ErrorFor(r, f) == When(!Truthy(r, Age), "age: required")
    ensures f.name == Region ==> ErrorFor(r, f) == When(!Truthy(r, Region), "region: required")
  {
    assert RequiredMessage(Gender) == "gender: required";
    assert RequiredMessage(Age) == "age: required";
    assert RequiredMessage(Region) == "region: required";
  }

  /** The trimmed-length test and the white-space test agree, and "" is
      white space only. */
  lemma TrimEmptyIffWhitespace(c: string)
    ensures (c == "" || |Trim(c)| == 0) <==> AllWhitespace(c)
  {
  }

  /** Optional fields never produce a message. */
  lemma {:induction false} NoErrorsFromOptional(r: Record, schema: seq<FieldSpec>, from: nat)
    requires from <= |schema|
    requires forall i :: from <= i < |schema| ==> !schema[i].required
    ensures RequiredErrorsFrom(r, schema, from) == []
    decreases |schema| - from
  {
    if from < |schema| {
      NoErrorsFromOptional(r, schema, from + 1);
    }
  }

  // ---------- Properties of the validator ----------

  /** The four messages, in check order. */
  const AllMessages := ["callsign: required", "gender: required", "age: required", "region: required"]

  /** The fields the validator checks, in check order. */
  const CheckedFields := [Callsign, Gender, Age, Region]

  /** `a` is `b` with some elements left out. */
  predicate IsSubsequence(a: seq<string>, b: seq<string>)
    decreases |b|
  {
    if a == [] then true
    else if b == [] then false
    else (a[0] == b[0] && IsSubsequence(a[1..], b[1..])) || IsSubsequence(a, b[1..])
  }

  predicate Distinct(s: seq<string>) {
    forall i, j :: 0 <= i < j < |s| ==> s[i] != s[j]
  }

  /** Prepending an optional `m` to a subsequence of `b` gives a subsequence of `[m] + b`. */
  lemma SubsequenceWhen(c: bool, m: string, a: seq<string>, b: seq<string>)
    requires IsSubsequence(a, b)
    ensures IsSubsequence(When(c, m) + a, [m] + b)
  {
    if c {
      assert (When(c, m) + a)[1..] == a;
    } else {
      assert When(c, m) + a == a;
      if a != [] { assert ([m] + b)[1..] == b; }
    }
  }

  /** Every element of a subsequence of `b` is an element of `b`. */
  lemma {:induction false} SubsequenceElements(a: seq<string>, b: seq<string>)
    requires IsSubsequence(a, b)
    ensures forall x :: x in a ==> x in b
    decreases |b|
  {
    if a != [] {
      if a[0] == b[0] && IsSubsequence(a[1..], b[1..]) {
        SubsequenceElements(a[1..], b[1..]);
        assert forall x :: x in a ==> x == a[0] || x in a[1..];
      } else {
        SubsequenceElements(a, b[1..]);
      }
    }
  }

  /** A subsequence is no longer than the list it is taken from. */
  lemma {:induction false} SubsequenceLength(a: seq<string>, b: seq<string>)
    requires IsSubsequence(a, b)
    ensures |a| <= |b|
    decreases |b|
  {
    if a != [] {
      if a[0] == b[0] && IsSubsequence(a[1..], b[1..]) {
        SubsequenceLength(a[1..], b[1..]);
      } else {
        SubsequenceLength(a, b[1..]);
      }
    }
  }

  /** A subsequence of a list without repetitions has no repetitions. */
  lemma {:induction false} SubsequenceDistinct(a: seq<string>, b: seq<string>)
    requires IsSubsequence(a, b) && Distinct(b)
    ensures Distinct(a)
    decreases |b|
  {
    if a != [] {
      assert Distinct(b[1..]) by {
        forall i, j | 0 <= i < j < |b| - 1 ensures b[1..][i] != b[1..][j] {
          assert b[i + 1] != b[j + 1];
        }
      }
      if a[0] == b[0] && IsSubsequence(a[1..], b[1..]) {
        SubsequenceDistinct(a[1..], b[1..]);
        SubsequenceElements(a[1..], b[1..]);
        forall i, j | 0 <= i < j < |a| ensures a[i] != a[j] {
          if i == 0 {
            assert a[j] == a[1..][j - 1];
            assert a[j] in b[1..];
            var k :| 0 <= k < |b[1..]| && b[1..][k] == a[j];
            assert b[0] != b[k + 1];
          } else {
            assert a[i] == a[1..][i - 1] && a[j] == a[1..][j - 1];
          }
        }
      } else {
        SubsequenceDistinct(a, b[1..]);
      }
    }
  }

  /** Four optional messages, concatenated, form a subsequence of the four. */
  lemma WhenChain(c0: bool, c1: bool, c2: bool, c3: bool, m0: string, m1: string, m2: string, m3: string)
    ensures IsSubsequence(When(c0, m0) + (When(c1, m1) + (When(c2, m2) + When(c3, m3))),
                          [m0] + ([m1] + ([m2] + [m3])))
  {
    assert IsSubsequence([], []);
    SubsequenceWhen(c3, m3, [], []);
    assert When(c3, m3) + [] == When(c3, m3) && [m3] + [] == [m3];
    SubsequenceWhen(c2, m2, When(c3, m3), [m3]);
    SubsequenceWhen(c1, m1, When(c2, m2) + When(c3, m3), [m2] + [m3]);
    SubsequenceWhen(c0, m0, When(c1, m1) + (When(c2, m2) + When(c3, m3)), [m1] + ([m2] + [m3]));
  }

  /** The messages always come as a subsequence of the four, in order. */
  lemma ErrorsSubsequence(r: Record)
    ensures IsSubsequence(ExpectedErrors(r), AllMessages)
  {
    ExpectedErrorsByField(r);
    var w0 := When(CallsignBlank(r), "callsign: required");
    var w1 := When(!Truthy(r, Gender), "gender: required");
    var w2 := When(!Truthy(r, Age), "age: required");
    var w3 := When(!Truthy(r, Region), "region: required");
    WhenChain(CallsignBlank(r), !Truthy(r, Gender), !Truthy(r, Age), !Truthy(r, Region),
      "callsign: required", "gender: required", "age: required", "region: required");
    assert w0 + (w1 + (w2 + w3)) == w0 + w1 + w2 + w3;
    assert ["callsign: required"] + (["gender: required"] + (["age: required"] + ["region: required"])) == AllMessages;
  }

  /** At most four messages, at most one per field, always in the order
      callsign, gender, age, region. */
  lemma ErrorsInCheckOrder(r: Record)
    ensures |ExpectedErrors(r)| <= 4
    ensures IsSubsequence(ExpectedErrors(r), AllMessages)
    ensures Distinct(ExpectedErrors(r))
  {
    var e := ExpectedErrors(r);
    ErrorsSubsequence(r);
    SubsequenceLength(e, AllMessages);
    assert Distinct(AllMessages);
    SubsequenceDistinct(e, AllMessages);
  }

  /** An empty record fails all four checks, in order. */
  lemma EmptyRecordFailsAll()
    ensures ExpectedErrors(map[]) == AllMessages
  {
    ExpectedErrorsByField(map[]);
  }

  /** The fields the validator checks are the schema's required fields and
      the form's required fields, in the same order, and the messages are
      theirs. */
  lemma CheckedFieldsAreRequired()
    ensures RequiredNames(AgentSchema) == CheckedFields
    ensures RequiredIds(FormFields) == CheckedFields
    ensures forall i :: 0 <= i < |CheckedFields| ==> AllMessages[i] == RequiredMessage(CheckedFields[i])
  {
    SchemaRequiredFields();
    FormRequiredFields();
    assert RequiredMessage(Callsign) == AllMessages[0];
    assert RequiredMessage(Gender) == AllMessages[1];
    assert RequiredMessage(Age) == AllMessages[2];
    assert RequiredMessage(Region) == AllMessages[3];
  }

  /** The callsign message appears exactly when the callsign is absent,
      empty or white space only. */
  lemma CallsignErrorIff(r: Record)
    ensures "callsign: required" in ExpectedErrors(r) <==> CallsignBlank(r)
  {
    ExpectedErrorsByField(r);
  }

  /** The gender, age and region messages appear exactly when the field is
      absent or "". */
  lemma FalsyErrorIff(r: Record)
    ensures "gender: required" in ExpectedErrors(r) <==> !Truthy(r, Gender)
    ensures "age: required" in ExpectedErrors(r) <==> !Truthy(r, Age)
    ensures "region: required" in ExpectedErrors(r) <==> !Truthy(r, Region)
  {
    ExpectedErrorsByField(r);
  }

  /** A record passes exactly when its callsign has a non-white-space
      character and gender, age and region are non-empty strings, whatever
      their values: membership in the declared value sets and the length
      limits are not checked. */
  lemma PassesIff(r: Record)
    ensures ExpectedErrors(r) == [] <==>
      !CallsignBlank(r) && Truthy(r, Gender) && Truthy(r, Age) && Truthy(r, Region)
  {
    ExpectedErrorsByField(r);
  }

  /** Values outside the declared sets pass, as does an over-long callsign. */
  lemma EnumMembershipNotChecked()
    ensures ExpectedErrors(map[Callsign := "An agent with a callsign far beyond 32 chars",
                               Gender := "robot", Age := "ancient", Region := "moon"]) == []
    ensures "robot" !in GenderValues && "ancient" !in AgeValues && "moon" !in RegionValues
    ensures AgentSchema[0].name == Callsign && AgentSchema[0].kind.Text?
    ensures |"An agent with a callsign far beyond 32 chars"| > AgentSchema[0].kind.maxLength
  {
    var r := map[Callsign := "An agent with a callsign far beyond 32 chars",
                 Gender := "robot", Age := "ancient", Region := "moon"];
    assert !IsJsWhitespace(r[Callsign][0]);
    PassesIff(r);
  }

  /** A field set to "" is treated as absent. */
  lemma EmptyStringIsAbsent(r: Record, name: string)
    ensures ExpectedErrors(r[name := ""]) == ExpectedErrors(r - {name})
  {
    ExpectedErrorsByField(r[name := ""]);
    ExpectedErrorsByField(r - {name});
  }

  /** Fields other than the four checked ones never affect the result. */
  lemma UncheckedFieldsIgnored(r: Record, name: string, value: string)
    requires name !in CheckedFields
    ensures ExpectedErrors(r[name := value]) == ExpectedErrors(r)
    ensures ExpectedErrors(r - {name}) == ExpectedErrors(r)
  {
    ExpectedErrorsByField(r);
    ExpectedErrorsByField(r[name := value]);
    ExpectedErrorsByField(r - {name});
  }

  /** The documented example: a complete record with declared values passes. */
  lemma CompleteRecordPasses()
    ensures ExpectedErrors(map[Callsign := "Nova", Gender := "female", Age := "18-25", Region := "russia"]) == []
  {
    var r := map[Callsign := "Nova", Gender := "female", Age := "18-25", Region := "russia"];
    assert !IsJsWhitespace(r[Callsign][0]);
    PassesIff(r);
  }
}
