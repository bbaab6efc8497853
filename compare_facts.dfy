/** What the comparison records mean: when a standard is reported
    compliant, which observation wins, what absence gives, and which
    defaults fill the metadata. */
module CompareFacts {
  import opened JsonValue
  import opened JsonStringify
  import opened StandardsCompare

  /** The same rule stated on a built record. */
  lemma ComplianceMeaning(entry: (string, Json), scope: Scope)
    requires RecordFor(entry, scope).Ok?
    ensures var rec := RecordFor(entry, scope).value;
            rec.complianceStatus == Compliant <==>
              DirectValue(scope.tenant, rec.standardId) == Some(Bool(true)) ||
              rec.currentTenantValue == Some(rec.standardValue)
  {
  }

  /** In the fallback branch, testing a desired `true` with `=== true`
      decides the same as comparing serialisations would. */
  lemma BooleanCaseAgrees(value: Option<Json>)
    ensures (value == Some(Bool(true))) <==> (StringifyOpt(value) == Some(Stringify(Bool(true))))
  {
  }

  /** A direct `true` on the tenant row is compliant whatever the template
      asks for, and is the value shown. */
  lemma DirectTrueComplies(entry: (string, Json), scope: Scope)
    requires RecordFor(entry, scope).Ok?
    requires DirectValue(scope.tenant, StandardId(entry.0)) == Some(Bool(true))
    ensures RecordFor(entry, scope).value.complianceStatus == Compliant
    ensures RecordFor(entry, scope).value.currentTenantValue == Some(Bool(true))
  {
  }

  /** A direct `false` never complies: the desired settings it is compared
      with are never falsy. */
  lemma DirectFalseNeverComplies(entry: (string, Json), scope: Scope)
    requires RecordFor(entry, scope).Ok?
    requires DirectValue(scope.tenant, StandardId(entry.0)) == Some(Bool(false))
    ensures RecordFor(entry, scope).value.complianceStatus == NonCompliant
  {
  }

  /** A value stored directly on the tenant row takes precedence over the
      results list: two tenant rows with the same direct value give the
      same verdict and show the same value, whatever their results. */
  lemma DirectValueTakesPrecedence(entry: (string, Json), s1: Scope, s2: Scope)
    requires RecordFor(entry, s1).Ok? && RecordFor(entry, s2).Ok?
    requires DirectValue(s1.tenant, StandardId(entry.0)).Some?
    requires DirectValue(s1.tenant, StandardId(entry.0)) == DirectValue(s2.tenant, StandardId(entry.0))
    ensures RecordFor(entry, s1).value.complianceStatus == RecordFor(entry, s2).value.complianceStatus
    ensures RecordFor(entry, s1).value.currentTenantValue == RecordFor(entry, s2).value.currentTenantValue
  {
  }

  /** With neither a direct value nor a results entry the standard is
      non-compliant and no tenant value is shown. */
  lemma NoObservationIsNonCompliant(entry: (string, Json), scope: Scope)
    requires RecordFor(entry, scope).Ok?
    requires DirectValue(scope.tenant, StandardId(entry.0)).None?
    requires ResultEntry(scope.tenant, StandardId(entry.0)) == Ok(None)
    ensures RecordFor(entry, scope).value.complianceStatus == NonCompliant
    ensures RecordFor(entry, scope).value.currentTenantValue.None?
  {
  }

  /** When no tenant row matches the current tenant, every standard whose
      configuration is not `null` builds a non-compliant record without a
      tenant value. */
  lemma NoTenantRowIsNonCompliant(entry: (string, Json), catalog: seq<CatalogEntry>, templateName: Json)
    requires entry.1 != Null
    ensures RecordFor(entry, Scope(catalog, None, templateName)).Ok?
    ensures RecordFor(entry, Scope(catalog, None, templateName)).value.complianceStatus == NonCompliant
    ensures RecordFor(entry, Scope(catalog, None, templateName)).value.currentTenantValue.None?
  {
  }

  /** A missing or falsy desired setting is stored, and compared, as `{}`. */
  lemma FalsyDesiredIsEmptyObject(entry: (string, Json), scope: Scope)
    requires RecordFor(entry, scope).Ok?
    requires Falsy(Declared(entry.1, entry.0))
    ensures RecordFor(entry, scope).value.standardValue == Obj([])
  {
  }

  /** The stored desired value is the declared setting whenever that is
      truthy. */
  lemma TruthyDesiredIsKept(entry: (string, Json), scope: Scope)
    requires RecordFor(entry, scope).Ok?
    requires Truthy(Declared(entry.1, entry.0))
    ensures Some(RecordFor(entry, scope).value.standardValue) == Declared(entry.1, entry.0)
  {
  }

  /** A standard missing from the catalog gets the fallback metadata. */
  lemma UncataloguedDefaults(entry: (string, Json), scope: Scope)
    requires RecordFor(entry, scope).Ok?
    requires forall i :: 0 <= i < |scope.catalog| ==> scope.catalog[i].name != StandardId(entry.0)
    ensures var rec := RecordFor(entry, scope).value;
            && rec.standardName == entry.0
            && rec.complianceDetails == ""
            && rec.standardDescription == ""
            && rec.standardImpact == "Medium Impact"
            && rec.standardImpactColour == "warning"
  {
  }

  /** Each metadata field of a record falls back on its own: whenever the
      catalog has no entry for the standard, or the entry lacks that field
      or leaves it empty, the field takes its default. */
  lemma MetadataFallbacks(entry: (string, Json), scope: Scope)
    requires RecordFor(entry, scope).Ok?
    ensures var info := FindCatalog(scope.catalog, StandardId(entry.0));
            var rec := RecordFor(entry, scope).value;
            && (info.None? || info.value.labelText.None? || info.value.labelText.value == "" ==>
                  rec.standardName == entry.0)
            && (info.Some? && info.value.labelText.Some? && info.value.labelText.value != "" ==>
                  rec.standardName == info.value.labelText.value)
            && (info.None? || info.value.impact.None? || info.value.impact.value == "" ==>
                  rec.standardImpact == "Medium Impact")
            && (info.Some? && info.value.impact.Some? && info.value.impact.value != "" ==>
                  rec.standardImpact == info.value.impact.value)
            && (info.None? || info.value.impactColour.None? || info.value.impactColour.value == "" ==>
                  rec.standardImpactColour == "warning")
            && (info.Some? && info.value.impactColour.Some? && info.value.impactColour.value != "" ==>
                  rec.standardImpactColour == info.value.impactColour.value)
            && rec.complianceDetails == Details(info)
            && rec.standardDescription == Description(info)
  {
  }

  /** Serialised comparison is sensitive to member order: the same settings
      written in another order are not compliant. */
  lemma MemberOrderMatters()
    ensures !Verdict(Some(Obj([("b", Num(2)), ("a", Num(1))])), None, Obj([("a", Num(1)), ("b", Num(2))]))
  {
  }

  /** A direct `false` overrides a results entry holding `true`. */
  lemma DirectFalseOverridesResults()
    ensures !Verdict(Some(Bool(false)), Some(Obj([("standardId", Str("standards.AuditLog")), ("value", Bool(true))])), Bool(true))
  {
  }
}
