/** The two pieces of logic the page applies to a record while rendering
    it: the per-field difference flag for an object-valued tenant value,
    and the text chosen for a setting value. */
module CompareView {
  import opened JsonValue
  import opened JsonStringify
  import opened StandardsCompare
  import opened CompareFacts

  /** The desired value under one key: read from the desired value when
      that is a truthy object, `undefined` otherwise. */
  function DesiredForKey(standardValue: Json, key: string): (r: Option<Json>)
    ensures standardValue.Obj? ==> r == Lookup(standardValue.fields, key)
    ensures !standardValue.Obj? ==> r.None?
  {
    if Truthy(Some(standardValue)) && (standardValue.Obj? || standardValue.Arr?) then Get(standardValue, key)
    else None
  }

  /** Whether one member of the tenant's value is flagged different: a
      field is flagged exactly when the desired value is an object with a
      member for that key and that member is a different value. Keys the
      desired value lacks, and desired values that are not objects, never
      flag anything. */
  function IsDifferent(standardValue: Json, key: string, value: Json): (different: bool)
    ensures different <==>
              standardValue.Obj? && Lookup(standardValue.fields, key).Some? &&
              Lookup(standardValue.fields, key).value != value
  {
    var desired := DesiredForKey(standardValue, key);
    if desired.Some? then
      StringifyInjective(value, desired.value);
      Stringify(value) != Stringify(desired.value)
    else false
  }

  /** The value the page renders for one setting: an object by its label
      or else its serialisation, a boolean as "Enabled" or "Disabled", and
      anything else as its string form. */
  function Display(v: Json): (r: Json)
    ensures v == Bool(true) ==> r == Str("Enabled")
    ensures v == Bool(false) ==> r == Str("Disabled")
    ensures v == Null ==> r == Str("null")
    ensures v.Num? ==> r == Str(IntToString(v.n))
    ensures v.Str? ==> r == v
    ensures v.Obj? && Truthy(Get(v, "label")) ==> Some(r) == Get(v, "label")
    ensures v.Arr? || (v.Obj? && Falsy(Get(v, "label"))) ==> r == Str(Stringify(v))
  {
    match v
    case Obj(_) =>
      var caption := Get(v, "label");
      if Truthy(caption) then caption.value else Str(Stringify(v))
    case Arr(_) => Str(Stringify(v))
    case Bool(b) => Str(if b then "Enabled" else "Disabled")
    case Null => Str("null")
    case Num(n) => Str(IntToString(n))
    case Str(s) => Str(s)
  }

  /** Structured values without a label are shown by their serialisation,
      so two of them look alike only when they are the same value. */
  lemma UnlabelledDisplayDistinguishes(a: Json, b: Json)
    requires (a.Obj? || a.Arr?) && Falsy(Get(a, "label"))
    requires (b.Obj? || b.Arr?) && Falsy(Get(b, "label"))
    ensures Display(a) == Display(b) <==> a == b
  {
    StringifyInjective(a, b);
  }

  /** The text for one member of the tenant's value: a `true` in a
      compliant record reads "Compliant", anything else as `Display`. */
  function FieldText(status: Status, v: Json): (r: Json)
    ensures status == Compliant && v == Bool(true) ==> r == Str("Compliant")
    ensures !(status == Compliant && v == Bool(true)) ==> r == Display(v)
  {
    if status == Compliant && v == Bool(true) then Str("Compliant") else Display(v)
  }

  /** The colour a member of the tenant's value is written in. */
  datatype Colour = SuccessMain | ErrorMain | Inherit

  /** Every member of a compliant record is shown as a success; in a
      non-compliant one only the members flagged different stand out. */
  function FieldColour(status: Status, different: bool): (c: Colour)
    ensures c == ErrorMain <==> status.NonCompliant? && different
    ensures c == SuccessMain <==> status == Compliant
  {
    if status == Compliant then SuccessMain else if different then ErrorMain else Inherit
  }

  /** One rendered member of an object-valued tenant value. */
  datatype FieldView = FieldView(key: string, different: bool, colour: Colour, text: Json)

  /** `Object.entries(standard.currentTenantValue).map(...)`: the members
      of the tenant's value, in order, each with its difference flag and
      text; a tenant value that is not an object has no rows here. */
  function ObservedFields(rec: ComparisonRecord): (r: seq<FieldView>)
    ensures rec.currentTenantValue.Some? && rec.currentTenantValue.value.Obj? ==>
              |r| == |rec.currentTenantValue.value.fields| &&
              forall i :: 0 <= i < |r| ==> r[i].key == rec.currentTenantValue.value.fields[i].0
    ensures !(rec.currentTenantValue.Some? && rec.currentTenantValue.value.Obj?) ==> r == []
  {
    if rec.currentTenantValue.Some? && rec.currentTenantValue.value.Obj? then
      var fields := rec.currentTenantValue.value.fields;
      seq(|fields|, i requires 0 <= i < |fields| =>
        FieldView(fields[i].0,
                  IsDifferent(rec.standardValue, fields[i].0, fields[i].1),
                  FieldColour(rec.complianceStatus, IsDifferent(rec.standardValue, fields[i].0, fields[i].1)),
                  FieldText(rec.complianceStatus, fields[i].1)))
    else []
  }

  /** When the tenant's value is the desired object itself, no field is
      flagged different. */
  lemma MatchingValueFlagsNothing(rec: ComparisonRecord)
    requires rec.currentTenantValue == Some(rec.standardValue)
    requires rec.standardValue.Obj? && DistinctKeys(rec.standardValue.fields)
    ensures forall f :: f in ObservedFields(rec) ==> !f.different
  {
  }

  /** A compliant record that was not decided by the direct `true`
      shorthand flags no field of its tenant value. */
  lemma CompliantRecordFlagsNothing(entry: (string, Json), scope: Scope)
    requires RecordFor(entry, scope).Ok?
    requires RecordFor(entry, scope).value.complianceStatus == Compliant
    requires DirectValue(scope.tenant, StandardId(entry.0)) != Some(Bool(true))
    requires RecordFor(entry, scope).value.standardValue.Obj?
    requires DistinctKeys(RecordFor(entry, scope).value.standardValue.fields)
    ensures forall f :: f in ObservedFields(RecordFor(entry, scope).value) ==> !f.different
  {
    ComplianceMeaning(entry, scope);
    MatchingValueFlagsNothing(RecordFor(entry, scope).value);
  }

  /** A scalar desired value never flags the members of an object-valued
      tenant value. */
  lemma ScalarDesiredFlagsNothing(rec: ComparisonRecord)
    requires !rec.standardValue.Obj?
    ensures forall f :: f in ObservedFields(rec) ==> !f.different
  {
  }

  /** In a non-compliant record, a member of the tenant's value is shown in
      the error colour exactly when the desired object holds a different
      value under the same key. */
  lemma ErrorColourMeaning(rec: ComparisonRecord, i: nat)
    requires rec.complianceStatus == NonCompliant
    requires rec.currentTenantValue.Some? && rec.currentTenantValue.value.Obj?
    requires i < |rec.currentTenantValue.value.fields|
    ensures var (key, value) := rec.currentTenantValue.value.fields[i];
            ObservedFields(rec)[i].colour == ErrorMain <==>
              rec.standardValue.Obj? && Lookup(rec.standardValue.fields, key).Some? &&
              Lookup(rec.standardValue.fields, key).value != value
  {
  }

  /** The password-policy example: a shorter minimum length is flagged,
      the matching MFA setting is not. */
  lemma PasswordPolicyExample()
    ensures var desired := Obj([("minLength", Num(14)), ("mfa", Bool(true))]);
            IsDifferent(desired, "minLength", Num(8)) && !IsDifferent(desired, "mfa", Bool(true))
  {
  }
}
