/**
 * The static data of the onboarding module: the agent record schema, the
 * fields of the questionnaire form (only ids, required flags and option
 * values; the display copy is not modelled), the two label tables and the
 * success message.
 */
module Schema {
  import opened Options

  /** An agent record as the form builds it: field name to string value.
      A name that is not a key stands for an absent (undefined) field. */
  type Record = map<string, string>

  // Field names of the agent record.
  const Callsign := "callsign"
  const Gender := "gender"
  const GenderOther := "genderOther"
  const Age := "age"
  const Region := "region"
  const Education := "education"
  const Activity := "activity"
  const Platform := "platform"
  const Factcheck := "factcheck"
  const Role := "role"
  const Goal := "goal"
  const CompletedAt := "completedAt"

  // Declared value sets of the enum fields, in declaration order.
  const GenderValues := ["female", "male", "nonbinary", "skip", "other"]
  const AgeValues := ["under18", "18-25", "26-35", "36-45", "46plus"]
  const RegionValues := ["russia", "ukraine", "belarus", "kazakhstan", "other-cis",
                         "europe", "americas", "asia", "africa", "other"]
  const EducationValues := ["secondary", "vocational", "student", "bachelor", "master", "other"]
  const ActivityValues := ["under2h", "2-5h", "5-8h", "8plus"]
  const PlatformValues := ["instagram", "tiktok", "telegram", "youtube", "x", "vk", "other"]
  const FactcheckValues := ["always", "sometimes", "rarely", "never"]
  const RoleValues := ["observer", "active", "creator", "analyst", "anon"]
  const GoalValues := ["play", "challenge", "fakes", "research"]

  /** The semantic type of a schema field. */
  datatype Kind =
    | Text(maxLength: nat)
    | Enum(values: seq<string>)
    | Timestamp

  /** When a field is meaningful: always, or only while another field holds
      a given value (`genderOther` only while `gender` is "other"). */
  datatype Condition = Always | WhenEquals(field: string, value: string)

  datatype FieldSpec = FieldSpec(name: string, kind: Kind, required: bool, visible: Condition)

  /** AGENT_SCHEMA, in declaration order. */
  const AgentSchema: seq<FieldSpec> := [
    FieldSpec(Callsign, Text(32), true, Always),
    FieldSpec(Gender, Enum(GenderValues), true, Always),
    FieldSpec(GenderOther, Text(20), false, WhenEquals(Gender, "other")),
    FieldSpec(Age, Enum(AgeValues), true, Always),
    FieldSpec(Region, Enum(RegionValues), true, Always),
    FieldSpec(Education, Enum(EducationValues), false, Always),
    FieldSpec(Activity, Enum(ActivityValues), false, Always),
    FieldSpec(Platform, Enum(PlatformValues), false, Always),
    FieldSpec(Factcheck, Enum(FactcheckValues), false, Always),
    FieldSpec(Role, Enum(RoleValues), false, Always),
    FieldSpec(Goal, Enum(GoalValues), false, Always),
    FieldSpec(CompletedAt, Timestamp, false, Always)
  ]

  /** How the form renders a field. */
  datatype Widget = TextInput | Radio | Select

  /** A form field: its id, widget, required flag, the option values it
      offers (in display order) and the option, if any, that opens a
      free-text subfield. */
  datatype FormField = FormField(id: string, widget: Widget, required: bool,
                                 options: seq<string>, subfieldOn: Option<string>)

  /** The fields of the FORM screen, in display order. */
  const FormFields: seq<FormField> := [
    FormField(Callsign, TextInput, true, [], None),
    FormField(Gender, Radio, true, ["female", "male", "nonbinary", "skip", "other"], Some("other")),
    FormField(Age, Radio, true, ["under18", "18-25", "26-35", "36-45", "46plus"], None),
    FormField(Region, Select, true,
      ["russia", "ukraine", "belarus", "kazakhstan", "other-cis",
       "europe", "americas", "asia", "africa", "other"], None),
    FormField(Education, Select, false,
      ["secondary", "vocational", "student", "bachelor", "master", "other"], None),
    FormField(Activity, Radio, false, ["under2h", "2-5h", "5-8h", "8plus"], None),
    FormField(Platform, Radio, false,
      ["instagram", "tiktok", "telegram", "youtube", "x", "vk", "other"], None),
    FormField(Factcheck, Radio, false, ["always", "sometimes", "rarely", "never"], None),
    FormField(Role, Radio, false, ["observer", "active", "creator", "analyst", "anon"], None),
    FormField(Goal, Radio, false, ["play", "challenge", "fakes", "research"], None)
  ]

  /** GENDER_LABELS: display label per gender value. */
  const GenderLabels: map<string, string> := map[
    "female" := "Женский",
    "male" := "Мужской",
    "nonbinary" := "Небинарный",
    "skip" := "Не указан",
    "other" := "Другое"
  ]

  /** AGE_LABELS: display label per age group. */
  const AgeLabels: map<string, string> := map[
    "under18" := "<18",
    "18-25" := "18–25",
    "26-35" := "26–35",
    "36-45" := "36–45",
    "46plus" := "46+"
  ]

  // ---------- Queries over the tables ----------

  function SpecName(f: FieldSpec): string { f.name }
  function SpecRequired(f: FieldSpec): bool { f.required }
  function FieldId(f: FormField): string { f.id }
  function FieldRequired(f: FormField): bool { f.required }

  /** Keys of the entries of `xs[from..]` that `required` selects, in order. */
  function RequiredKeysFrom<T>(xs: seq<T>, key: T -> string, required: T -> bool, from: nat): (keys: seq<string>)
    requires from <= |xs|
    ensures |keys| <= |xs| - from
    ensures forall n :: n in keys ==> exists i :: from <= i < |xs| && required(xs[i]) && key(xs[i]) == n
    decreases |xs| - from
  {
    if from == |xs| then []
    else (if required(xs[from]) then [key(xs[from])] else []) + RequiredKeysFrom(xs, key, required, from + 1)
  }

  /** The first entry of `xs` whose key is `k`, if there is one. */
  function Lookup<T>(xs: seq<T>, key: T -> string, k: string): (r: Option<T>)
    ensures r.Some? ==> r.value in xs && key(r.value) == k
    ensures r.None? ==> forall x :: x in xs ==> key(x) != k
  {
    if xs == [] then None
    else if key(xs[0]) == k then Some(xs[0])
    else Lookup(xs[1..], key, k)
  }

  predicate DistinctKeys<T>(xs: seq<T>, key: T -> string) {
    forall i, j :: 0 <= i < j < |xs| ==> key(xs[i]) != key(xs[j])
  }

  /** Names of the fields the schema marks required, in schema order. */
  function RequiredNames(schema: seq<FieldSpec>): seq<string> {
    RequiredKeysFrom(schema, SpecName, SpecRequired, 0)
  }

  /** Ids of the form fields marked required, in form order. */
  function RequiredIds(form: seq<FormField>): seq<string> {
    RequiredKeysFrom(form, FieldId, FieldRequired, 0)
  }

  /** The schema entry for field `name`. */
  function FieldOf(schema: seq<FieldSpec>, name: string): Option<FieldSpec> {
    Lookup(schema, SpecName, name)
  }

  /** The form field with id `id`. */
  function FormFieldOf(form: seq<FormField>, id: string): Option<FormField> {
    Lookup(form, FieldId, id)
  }

  /** With distinct keys, looking up the key of entry `k` finds entry `k`. */
  lemma {:induction false} LookupAt<T>(xs: seq<T>, key: T -> string, k: nat)
    requires DistinctKeys(xs, key) && k < |xs|
    ensures Lookup(xs, key, key(xs[k])) == Some(xs[k])
  {
    if k > 0 {
      assert key(xs[0]) != key(xs[k]);
      assert DistinctKeys(xs[1..], key) by {
        forall i, j | 0 <= i < j < |xs| - 1 ensures key(xs[1..][i]) != key(xs[1..][j]) {
          assert key(xs[i + 1]) != key(xs[j + 1]);
        }
      }
      LookupAt(xs[1..], key, k - 1);
    }
  }

  function ToSet(s: seq<string>): (r: set<string>)
    ensures forall x :: x in r <==> x in s
  {
    set x | x in s
  }

  // ---------- The success message ----------

  const SuccessPrefix := "Идентификация завершена. Добро пожаловать в миссию, "

  /** SUCCESS_MESSAGE: the fixed prefix, the callsign verbatim (no escaping
      or trimming), then "!". */
  function SuccessMessage(callsign: string): (m: string)
    ensures |m| == |SuccessPrefix| + |callsign| + 1
    ensures m[..|SuccessPrefix|] == SuccessPrefix
    ensures m[|SuccessPrefix|..|m| - 1] == callsign
    ensures m[|m| - 1] == '!'
  {
    SuccessPrefix + callsign + "!"
  }

  /** Reads the callsign back out of a message, if it has the message's shape. */
  function CallsignOfMessage(m: string): (c: Option<string>)
    ensures c.Some? <==> |m| > |SuccessPrefix| && m[..|SuccessPrefix|] == SuccessPrefix && m[|m| - 1] == '!'
    ensures c.Some? ==> SuccessMessage(c.value) == m
  {
    if |m| > |SuccessPrefix| && m[..|SuccessPrefix|] == SuccessPrefix && m[|m| - 1] == '!'
    then
      var c := m[|SuccessPrefix|..|m| - 1];
      assert SuccessPrefix + c + "!" == m;
      Some(c)
    else None
  }

  // ---------- Agreement between the tables ----------

  /** Entries at or after `from` that are not required contribute nothing. */
  lemma {:induction false} NoneRequiredFrom<T>(xs: seq<T>, key: T -> string, required: T -> bool, from: nat)
    requires from <= |xs|
    requires forall i :: from <= i < |xs| ==> !required(xs[i])
    ensures RequiredKeysFrom(xs, key, required, from) == []
    decreases |xs| - from
  {
    if from < |xs| {
      NoneRequiredFrom(xs, key, required, from + 1);
    }
  }

  /** The schema requires exactly callsign, gender, age and region, in
      that order. */
  lemma SchemaRequiredFields()
    ensures RequiredNames(AgentSchema) == [Callsign, Gender, Age, Region]
  {
    var s := AgentSchema;
    NoneRequiredFrom(s, SpecName, SpecRequired, 5);
    assert RequiredKeysFrom(s, SpecName, SpecRequired, 4) == [Region];
    assert RequiredKeysFrom(s, SpecName, SpecRequired, 3) == [Age, Region];
    assert RequiredKeysFrom(s, SpecName, SpecRequired, 2) == [Age, Region];
    assert RequiredKeysFrom(s, SpecName, SpecRequired, 1) == [Gender, Age, Region];
  }

  /** The form marks exactly callsign, gender, age and region required, in
      that order. */
  lemma FormRequiredFields()
    ensures RequiredIds(FormFields) == [Callsign, Gender, Age, Region]
  {
    var f := FormFields;
    NoneRequiredFrom(f, FieldId, FieldRequired, 4);
    assert RequiredKeysFrom(f, FieldId, FieldRequired, 3) == [Region];
    assert RequiredKeysFrom(f, FieldId, FieldRequired, 2) == [Age, Region];
    assert RequiredKeysFrom(f, FieldId, FieldRequired, 1) == [Gender, Age, Region];
  }

  /** No two schema entries share a name. */
  lemma SchemaNamesDistinct()
    ensures DistinctKeys(AgentSchema, SpecName)
  {
  }

  /** No two form fields share an id. */
  lemma FormIdsDistinct()
    ensures DistinctKeys(FormFields, FieldId)
  {
  }

  /** Every form field is a schema field, and the two agree on whether it
      is required. */
  lemma FormRequiredMatchesSchema()
    ensures forall k :: 0 <= k < |FormFields| ==>
      FieldOf(AgentSchema, FormFields[k].id).Some? &&
      FieldOf(AgentSchema, FormFields[k].id).value.required == FormFields[k].required
  {
    SchemaNamesDistinct();
    forall k | 0 <= k < |FormFields|
      ensures FieldOf(AgentSchema, FormFields[k].id).Some?
      ensures FieldOf(AgentSchema, FormFields[k].id).value.required == FormFields[k].required
    {
      var j := if k < 2 then k else k + 1;
      assert AgentSchema[j].name == FormFields[k].id;
      assert AgentSchema[j].required == FormFields[k].required;
      LookupAt(AgentSchema, SpecName, j);
    }
  }

  /** Every enum field of the schema is a form field offering exactly the
      declared values, in the declared order. */
  lemma FormOptionsMatchSchema()
    ensures forall j :: 0 <= j < |AgentSchema| && AgentSchema[j].kind.Enum? ==>
      FormFieldOf(FormFields, AgentSchema[j].name).Some? &&
      FormFieldOf(FormFields, AgentSchema[j].name).value.options == AgentSchema[j].kind.values
  {
    FormIdsDistinct();
    forall j | 0 <= j < |AgentSchema| && AgentSchema[j].kind.Enum?
      ensures FormFieldOf(FormFields, AgentSchema[j].name).Some?
      ensures FormFieldOf(FormFields, AgentSchema[j].name).value.options == AgentSchema[j].kind.values
    {
      var k := if j < 2 then j else j - 1;
      assert FormFields[k].id == AgentSchema[j].name;
      assert FormFields[k].options == AgentSchema[j].kind.values;
      LookupAt(FormFields, FieldId, k);
    }
  }

  /** Only gender has a subfield, and it is opened by "other". */
  lemma OnlyGenderHasSubfield()
    ensures forall k :: 0 <= k < |FormFields| && FormFields[k].subfieldOn.Some? ==>
      FormFields[k].id == Gender && FormFields[k].subfieldOn.value == "other"
  {
    forall k | 0 <= k < |FormFields| && FormFields[k].subfieldOn.Some?
      ensures FormFields[k].id == Gender && FormFields[k].subfieldOn.value == "other"
    {
    }
  }

  /** The schema entry for `genderOther`: an optional text field shown when
      gender is "other". */
  lemma GenderOtherSpec()
    ensures FieldOf(AgentSchema, GenderOther) == Some(FieldSpec(GenderOther, Text(20), false, WhenEquals(Gender, "other")))
  {
    SchemaNamesDistinct();
    LookupAt(AgentSchema, SpecName, 2);
  }

  /** The gender field offers "other", and choosing it opens a subfield. */
  lemma GenderOpensSubfield()
    ensures exists k :: 0 <= k < |FormFields| && FormFields[k].id == Gender && FormFields[k].subfieldOn == Some("other")
                     && "other" in FormFields[k].options
  {
    var g := FormFields[1];
    assert g.id == Gender && g.subfieldOn == Some("other");
    assert g.options[4] == "other";
  }

  /** Gender's "other" option opens a subfield, and it is the only form field
      that does: exactly the value on which the schema makes `genderOther`
      meaningful. */
  lemma SubfieldMatchesCondition()
    ensures forall k :: 0 <= k < |FormFields| && FormFields[k].subfieldOn.Some? ==>
      FormFields[k].id == Gender && FormFields[k].subfieldOn.value == "other"
    ensures FieldOf(AgentSchema, GenderOther) == Some(FieldSpec(GenderOther, Text(20), false, WhenEquals(Gender, "other")))
    ensures exists k :: 0 <= k < |FormFields| && FormFields[k].id == Gender && FormFields[k].subfieldOn == Some("other")
                     && "other" in FormFields[k].options
    ensures forall k :: 0 <= k < |FormFields| && FormFields[k].subfieldOn.Some? ==>
      FieldOf(AgentSchema, GenderOther).value.visible == WhenEquals(FormFields[k].id, FormFields[k].subfieldOn.value)
  {
    OnlyGenderHasSubfield();
    GenderOtherSpec();
    GenderOpensSubfield();
  }

  /** The label tables have a label for every declared value and nothing else. */
  lemma LabelKeysAreEnumValues()
    ensures GenderLabels.Keys == ToSet(GenderValues)
    ensures AgeLabels.Keys == ToSet(AgeValues)
  {
  }

  /** The callsign can be read back from the message it was put into. */
  lemma SuccessMessageRoundTrip(callsign: string)
    ensures CallsignOfMessage(SuccessMessage(callsign)) == Some(callsign)
  {
  }

  /** Different callsigns give different messages. */
  lemma SuccessMessageInjective(c1: string, c2: string)
    requires SuccessMessage(c1) == SuccessMessage(c2)
    ensures c1 == c2
  {
  }
}
