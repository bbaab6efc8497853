/** The reconciliation engine of the standards comparison page: for the
    selected template and the current tenant it builds one comparison
    record per standard the template declares, deciding for each whether
    the tenant's observed value complies with the template's desired
    settings. */
module StandardsCompare {
  import opened JsonValue
  import opened JsonStringify

  datatype Status = Compliant | NonCompliant

  /** One entry of the static standards catalog. A missing field is None. */
  datatype CatalogEntry = CatalogEntry(
    name: string,
    labelText: Option<string>,
    helpText: Option<string>,
    docsDescription: Option<string>,
    impact: Option<string>,
    impactColour: Option<string>)

  /** What the page shows for one standard of the template. */
  datatype ComparisonRecord = ComparisonRecord(
    standardId: string,
    standardName: string,
    currentTenantValue: Option<Json>,
    standardValue: Json,
    complianceStatus: Status,
    complianceDetails: string,
    standardDescription: string,
    standardImpact: string,
    standardImpactColour: string,
    templateName: Json,
    templateActions: Json)

  /** What the record builder reads besides the template's own entries:
      the catalog, the matched tenant row (None when no row matched) and
      the template's display name. */
  datatype Scope = Scope(catalog: seq<CatalogEntry>, tenant: Option<Json>, templateName: Json)

  /** The state of one data query as the effect reads it. A query never
      reports success and failure at once; the model does not need that
      fact, since every outcome it states holds either way. */
  datatype Query = Query(isSuccess: bool, isError: bool, data: Option<Json>)

  /** What one run of the effect does to the page's comparison data: leaves
      it as it was, replaces it, or throws a TypeError before replacing it. */
  datatype Outcome = Unchanged | Replaced(records: seq<ComparisonRecord>) | Threw

  function StandardId(key: string): string
  {
    "standards." + key
  }

  // ---------------------------------------------------------------------
  // Lookups

  /** `x[field] === want` passes over `x` without a hit and without
      throwing. `want` is a string or `undefined`, for which `===` is
      equality of values. */
  predicate Skips(x: Json, field: string, want: Option<Json>)
  {
    x != Null && Get(x, field) != want
  }

  /** `find` with a property test: the first element whose `field`
      is `want`; reading a property of a `null` element throws. */
  function FindBy(xs: seq<Json>, field: string, want: Option<Json>): (r: Result<Option<Json>>)
    ensures r.Ok? && r.value.Some? ==> r.value.value in xs && Get(r.value.value, field) == want
  {
    if xs == [] then Ok(None)
    else if xs[0] == Null then TypeError
    else if Get(xs[0], field) == want then Ok(Some(xs[0]))
    else FindBy(xs[1..], field, want)
  }

  /** `find` yields `undefined` exactly when every element is passed over. */
  lemma {:induction false} FindByNone(xs: seq<Json>, field: string, want: Option<Json>)
    ensures FindBy(xs, field, want) == Ok(None) <==> forall i :: 0 <= i < |xs| ==> Skips(xs[i], field, want)
  {
    if xs != [] && xs[0] != Null && Get(xs[0], field) != want {
      FindByNone(xs[1..], field, want);
      assert forall i :: 0 < i < |xs| ==> xs[i] == xs[1..][i - 1];
    }
  }

  /** What `find` yields is the first element whose `field` is `want`. */
  lemma {:induction false} FindByFirst(xs: seq<Json>, field: string, want: Option<Json>)
    requires FindBy(xs, field, want).Ok? && FindBy(xs, field, want).value.Some?
    ensures exists i :: 0 <= i < |xs| && xs[i] == FindBy(xs, field, want).value.value &&
                        Get(xs[i], field) == want &&
                        forall j :: 0 <= j < i ==> Skips(xs[j], field, want)
  {
    if Get(xs[0], field) == want {
      assert xs[0] == FindBy(xs, field, want).value.value;
    } else {
      var rest := xs[1..];
      FindByFirst(rest, field, want);
      var k :| 0 <= k < |rest| && rest[k] == FindBy(rest, field, want).value.value &&
               Get(rest[k], field) == want && forall j :: 0 <= j < k ==> Skips(rest[j], field, want);
      assert xs[k + 1] == rest[k];
      assert forall j :: 0 < j <= k ==> xs[j] == rest[j - 1];
    }
  }

  /** `find` throws exactly when a `null` element is reached before any hit. */
  lemma {:induction false} FindByThrows(xs: seq<Json>, field: string, want: Option<Json>)
    ensures FindBy(xs, field, want).TypeError? <==>
              exists i :: 0 <= i < |xs| && xs[i] == Null && forall j :: 0 <= j < i ==> Skips(xs[j], field, want)
  {
    if xs == [] || xs[0] == Null {
      // the empty list finds nothing; a leading null throws at once
    } else if Get(xs[0], field) == want {
      assert !Skips(xs[0], field, want);
    } else {
      var rest := xs[1..];
      FindByThrows(rest, field, want);
      if FindBy(rest, field, want).TypeError? {
        var k :| 0 <= k < |rest| && rest[k] == Null && forall j :: 0 <= j < k ==> Skips(rest[j], field, want);
        assert xs[k + 1] == Null;
        assert forall j :: 0 < j <= k ==> xs[j] == rest[j - 1];
      }
      if exists i :: 0 <= i < |xs| && xs[i] == Null && forall j :: 0 <= j < i ==> Skips(xs[j], field, want) {
        var k :| 0 <= k < |xs| && xs[k] == Null && forall j :: 0 <= j < k ==> Skips(xs[j], field, want);
        assert rest[k - 1] == Null;
        assert forall j :: 0 <= j < k - 1 ==> rest[j] == xs[j + 1];
      }
    }
  }

  /** `v.find(...)` on a value that is not an array throws. */
  function FindIn(v: Json, field: string, want: Option<Json>): Result<Option<Json>>
  {
    if v.Arr? then FindBy(v.items, field, want) else TypeError
  }

  /** `standards.find((s) => s.name === standardId)` over the catalog. */
  function FindCatalog(catalog: seq<CatalogEntry>, id: string): (r: Option<CatalogEntry>)
    ensures r.None? <==> forall i :: 0 <= i < |catalog| ==> catalog[i].name != id
    ensures r.Some? ==> exists i :: 0 <= i < |catalog| && catalog[i] == r.value && r.value.name == id &&
                                    forall j :: 0 <= j < i ==> catalog[j].name != id
  {
    if catalog == [] then None
    else
      assert forall i :: 0 < i < |catalog| ==> catalog[i] == catalog[1..][i - 1];
      if catalog[0].name == id then Some(catalog[0]) else FindCatalog(catalog[1..], id)
  }

  // ---------------------------------------------------------------------
  // Desired and observed values

  /** `standardConfig.standards?.[standardKey]`. */
  function Declared(config: Json, key: string): (r: Option<Json>)
    ensures Get(config, "standards").None? || Get(config, "standards") == Some(Null) ==> r.None?
    ensures r.Some? ==> Get(config, "standards").value.Obj? &&
                        exists i :: 0 <= i < |Get(config, "standards").value.fields| &&
                                    Get(config, "standards").value.fields[i] == (key, r.value)
  {
    var inner := Get(config, "standards");
    if inner.None? || inner == Some(Null) then None else Get(inner.value, key)
  }

  /** `standardConfig.standards?.[standardKey] || {}`: the desired settings,
      never falsy. Reading `.standards` of a `null` configuration throws. */
  function DesiredSettings(config: Json, key: string): (r: Result<Json>)
    ensures r.TypeError? <==> config == Null
    ensures r.Ok? ==> Truthy(Some(r.value))
    ensures r.Ok? && Truthy(Declared(config, key)) ==> Some(r.value) == Declared(config, key)
    ensures r.Ok? && Falsy(Declared(config, key)) ==> r.value == Obj([])
  {
    if config == Null then TypeError else Ok(Or(Declared(config, key), Obj([])))
  }

  /** `standardConfig.action || []`. */
  function Actions(config: Json): (r: Json)
    ensures Truthy(Some(r))
    ensures Truthy(Get(config, "action")) ==> Some(r) == Get(config, "action")
    ensures Falsy(Get(config, "action")) ==> r == Arr([])
  {
    Or(Get(config, "action"), Arr([]))
  }

  /** `currentTenantObj?.[standardId]`: the value stored directly on the
      tenant row under the standard's id. */
  function DirectValue(tenant: Option<Json>, id: string): (r: Option<Json>)
    ensures tenant.None? ==> r.None?
    ensures r.Some? ==> tenant.Some? && tenant.value.Obj? &&
                        exists i :: 0 <= i < |tenant.value.fields| && tenant.value.fields[i] == (id, r.value)
  {
    if tenant.Some? then Get(tenant.value, id) else None
  }

  /** The tenant row's results list, `[]` when there is no row or the list
      is falsy. */
  function ResultsList(tenant: Option<Json>): Json
  {
    if Truthy(tenant) then Or(Get(tenant.value, "standardsResults"), Arr([])) else Arr([])
  }

  /** The first entry of the results list carrying the standard's id. */
  function ResultEntry(tenant: Option<Json>, id: string): (r: Result<Option<Json>>)
    ensures Falsy(tenant) ==> r == Ok(None)
    ensures tenant.Some? && Falsy(Get(tenant.value, "standardsResults")) ==> r == Ok(None)
    ensures r.Ok? && r.value.Some? ==> Get(r.value.value, "standardId") == Some(Str(id))
    ensures (Truthy(tenant) && Truthy(Get(tenant.value, "standardsResults")) &&
             !Get(tenant.value, "standardsResults").value.Arr?) ==> r.TypeError?
  {
    FindIn(ResultsList(tenant), "standardId", Some(Str(id)))
  }

  /** The compliance rule: a direct `true` complies; any other direct value
      complies when it serialises like the desired settings; without a
      direct value a results entry decides, desired `true` by `=== true`
      and anything else by serialisation; with neither, no compliance. */
  function Verdict(direct: Option<Json>, entry: Option<Json>, settings: Json): (compliant: bool)
    ensures compliant <==> direct == Some(Bool(true)) || ObservedValue(direct, entry) == Some(settings)
  {
    if direct == Some(Bool(true)) then true
    else if direct.Some? then
      StringifyInjective(direct.value, settings);
      Stringify(direct.value) == Stringify(settings)
    else if Truthy(entry) then
      if settings == Bool(true) then Get(entry.value, "value") == Some(Bool(true))
      else
        StringifyOptInjective(Get(entry.value, "value"), Some(settings));
        StringifyOpt(Get(entry.value, "value")) == Some(Stringify(settings))
    else false
  }

  /** The value shown as the tenant's: the direct value when defined, else
      the results entry's `value`. */
  function ObservedValue(direct: Option<Json>, entry: Option<Json>): (r: Option<Json>)
    ensures direct.Some? ==> r == direct
    ensures direct.None? && entry.Some? ==> r == Get(entry.value, "value")
    ensures direct.None? && entry.None? ==> r.None?
  {
    if direct.Some? then direct
    else if entry.Some? then Get(entry.value, "value")
    else None
  }

  // ---------------------------------------------------------------------
  // Catalog metadata with its fallbacks

  /** `s || fallback` for a string field that may be absent. */
  function OrText(s: Option<string>, fallback: string): string
  {
    if s.Some? && s.value != "" then s.value else fallback
  }

  function Field(info: Option<CatalogEntry>, f: CatalogEntry -> Option<string>): Option<string>
  {
    if info.Some? then f(info.value) else None
  }

  /** `standardInfo?.label || standardKey`. */
  function DisplayName(info: Option<CatalogEntry>, key: string): (r: string)
    ensures info.Some? && info.value.labelText.Some? && info.value.labelText.value != "" ==>
              r == info.value.labelText.value
    ensures info.None? || info.value.labelText.None? || info.value.labelText.value == "" ==> r == key
  {
    OrText(Field(info, (e: CatalogEntry) => e.labelText), key)
  }

  /** `standardInfo?.docsDescription || standardInfo?.helpText || ""`. */
  function Details(info: Option<CatalogEntry>): (r: string)
    ensures info.Some? && info.value.docsDescription.Some? && info.value.docsDescription.value != "" ==>
              r == info.value.docsDescription.value
    ensures info.None? || info.value.docsDescription.None? || info.value.docsDescription.value == "" ==>
              r == Description(info)
  {
    OrText(Field(info, (e: CatalogEntry) => e.docsDescription), OrText(Field(info, (e: CatalogEntry) => e.helpText), ""))
  }

  /** `standardInfo?.helpText || ""`. */
  function Description(info: Option<CatalogEntry>): (r: string)
    ensures info.Some? && info.value.helpText.Some? ==> r == info.value.helpText.value
    ensures info.None? || info.value.helpText.None? ==> r == ""
  {
    OrText(Field(info, (e: CatalogEntry) => e.helpText), "")
  }

  /** `standardInfo?.impact || "Medium Impact"`. */
  function Impact(info: Option<CatalogEntry>): (r: string)
    ensures info.Some? && info.value.impact.Some? && info.value.impact.value != "" ==> r == info.value.impact.value
    ensures info.None? || info.value.impact.None? || info.value.impact.value == "" ==> r == "Medium Impact"
  {
    OrText(Field(info, (e: CatalogEntry) => e.impact), "Medium Impact")
  }

  /** `standardInfo?.impactColour || "warning"`. */
  function ImpactColour(info: Option<CatalogEntry>): (r: string)
    ensures info.Some? && info.value.impactColour.Some? && info.value.impactColour.value != "" ==>
              r == info.value.impactColour.value
    ensures info.None? || info.value.impactColour.None? || info.value.impactColour.value == "" ==> r == "warning"
  {
    OrText(Field(info, (e: CatalogEntry) => e.impactColour), "warning")
  }

  /** `selectedTemplate.templateName || "Standard Template"`. */
  function TemplateName(template: Json): (r: Json)
    ensures Truthy(Get(template, "templateName")) ==> Some(r) == Get(template, "templateName")
    ensures Falsy(Get(template, "templateName")) ==> r == Str("Standard Template")
  {
    Or(Get(template, "templateName"), Str("Standard Template"))
  }

  // ---------------------------------------------------------------------
  // Records

  /** The record built for one declared standard, or the TypeError its
      construction throws. */
  function RecordFor(entry: (string, Json), scope: Scope): (r: Result<ComparisonRecord>)
    ensures r.Ok? <==> entry.1 != Null && ResultEntry(scope.tenant, StandardId(entry.0)).Ok?
  {
    var (key, config) := entry;
    var id := StandardId(key);
    var info := FindCatalog(scope.catalog, id);
    match DesiredSettings(config, key)
    case TypeError => TypeError
    case Ok(settings) =>
      match ResultEntry(scope.tenant, id)
      case TypeError => TypeError
      case Ok(found) =>
        var direct := DirectValue(scope.tenant, id);
        Ok(ComparisonRecord(
          id,
          DisplayName(info, key),
          ObservedValue(direct, found),
          settings,
          if Verdict(direct, found, settings) then Compliant else NonCompliant,
          Details(info),
          Description(info),
          Impact(info),
          ImpactColour(info),
          scope.templateName,
          Actions(config)))
  }

  /** Every declared standard builds without throwing. */
  predicate AllBuild(entries: seq<(string, Json)>, scope: Scope)
  {
    forall i :: 0 <= i < |entries| ==> RecordFor(entries[i], scope).Ok?
  }

  /** The records for the template's entries, one per entry and in their
      order, unless building one of them throws. */
  function Records(entries: seq<(string, Json)>, scope: Scope): (r: Result<seq<ComparisonRecord>>)
    ensures r.Ok? <==> AllBuild(entries, scope)
    ensures r.Ok? ==> |r.value| == |entries| &&
                      forall i :: 0 <= i < |entries| ==> r.value[i].standardId == StandardId(entries[i].0)
  {
    if AllBuild(entries, scope) then
      Ok(seq(|entries|, i requires 0 <= i < |entries| => RecordFor(entries[i], scope).value))
    else TypeError
  }

  /** The loop of the effect: walks the template's entries in order,
      decides compliance for each and pushes its record. */
  method BuildRecords(entries: seq<(string, Json)>, scope: Scope) returns (r: Result<seq<ComparisonRecord>>)
    ensures r == Records(entries, scope)
    ensures r.Ok? ==> |r.value| == |entries|
    ensures r.Ok? ==> forall i :: 0 <= i < |entries| ==>
                        r.value[i].standardId == StandardId(entries[i].0) &&
                        r.value[i].templateActions == Actions(entries[i].1)
    ensures r.TypeError? <==> exists i :: 0 <= i < |entries| && (entries[i].1 == Null ||
                                ResultEntry(scope.tenant, StandardId(entries[i].0)).TypeError?)
  {
    var allStandards: seq<ComparisonRecord> := [];
    var i := 0;
    while i < |entries|
      invariant 0 <= i <= |entries|
      invariant |allStandards| == i
      invariant forall j :: 0 <= j < i ==> RecordFor(entries[j], scope) == Ok(allStandards[j])
    {
      var (standardKey, standardConfig) := entries[i];
      var standardId := StandardId(standardKey);
      var standardInfo := FindCatalog(scope.catalog, standardId);
      var desired := DesiredSettings(standardConfig, standardKey);
      if desired.TypeError? {
        assert RecordFor(entries[i], scope).TypeError?;
        return TypeError;
      }
      var standardSettings := desired.value;
      var found := ResultEntry(scope.tenant, standardId);
      if found.TypeError? {
        assert RecordFor(entries[i], scope).TypeError?;
        return TypeError;
      }
      var currentTenantStandard := found.value;

      var isCompliant := false;
      var directStandardValue := DirectValue(scope.tenant, standardId);
      if directStandardValue == Some(Bool(true)) {
        isCompliant := true;
      } else if directStandardValue.Some? {
        isCompliant := Stringify(directStandardValue.value) == Stringify(standardSettings);
      } else if Truthy(currentTenantStandard) {
        if standardSettings == Bool(true) {
          isCompliant := Get(currentTenantStandard.value, "value") == Some(Bool(true));
        } else {
          isCompliant := StringifyOpt(Get(currentTenantStandard.value, "value")) == Some(Stringify(standardSettings));
        }
      }

      allStandards := allStandards + [ComparisonRecord(
        standardId,
        DisplayName(standardInfo, standardKey),
        if directStandardValue.Some? then directStandardValue
        else if currentTenantStandard.Some? then Get(currentTenantStandard.value, "value")
        else None,
        standardSettings,
        if isCompliant then Compliant else NonCompliant,
        Details(standardInfo),
        Description(standardInfo),
        Impact(standardInfo),
        ImpactColour(standardInfo),
        scope.templateName,
        Actions(standardConfig))];
      i := i + 1;
    }
    assert AllBuild(entries, scope);
    assert allStandards == seq(|entries|, i requires 0 <= i < |entries| => RecordFor(entries[i], scope).value);
    r := Ok(allStandards);
  }

  // ---------------------------------------------------------------------
  // The effect

  /** The template query is ready: a template id is set, the query
      succeeded and returned data. */
  predicate TemplatesReady(templateId: Option<string>, templates: Query)
    ensures TemplatesReady(templateId, templates) ==> templates.data.Some? && templates.data.value != Null
    ensures TemplatesReady(templateId, templates) <==>
              Truthy(if templateId.Some? then Some(Str(templateId.value)) else None) &&
              templates.isSuccess && Truthy(templates.data)
  {
    templateId.Some? && templateId.value != "" && templates.isSuccess && Truthy(templates.data)
  }

  /** The comparison query succeeded and returned data. */
  predicate ComparisonReady(comparison: Query)
    ensures ComparisonReady(comparison) ==> comparison.data.Some? && comparison.data.value != Null
    ensures !comparison.isSuccess ==> !ComparisonReady(comparison)
  {
    comparison.isSuccess && Truthy(comparison.data)
  }

  /** The first template whose `GUID` is the selected id. */
  function SelectTemplate(templates: Json, templateId: string): (r: Result<Option<Json>>)
    ensures !templates.Arr? ==> r.TypeError?
    ensures r.Ok? && r.value.Some? ==>
              r.value.value in templates.items && Get(r.value.value, "GUID") == Some(Str(templateId))
  {
    FindIn(templates, "GUID", Some(Str(templateId)))
  }

  /** The first tenant row whose `tenantFilter` is the current tenant; with no
      current tenant this finds the first row without a `tenantFilter`. */
  function SelectTenant(rows: Json, currentTenant: Option<string>): (r: Result<Option<Json>>)
    ensures !rows.Arr? ==> r.TypeError?
    ensures r.Ok? && r.value.Some? && currentTenant.Some? ==>
              r.value.value in rows.items && Get(r.value.value, "tenantFilter") == Some(Str(currentTenant.value))
    ensures r.Ok? && r.value.Some? && currentTenant.None? ==>
              r.value.value in rows.items && Get(r.value.value, "tenantFilter").None?
  {
    FindIn(rows, "tenantFilter", if currentTenant.Some? then Some(Str(currentTenant.value)) else None)
  }

  /** `Object.entries(selectedTemplate.standards)` when that is truthy;
      nothing is declared otherwise. */
  function DeclaredStandards(template: Json): (r: seq<(string, Json)>)
    ensures Falsy(Get(template, "standards")) ==> r == []
    ensures Truthy(Get(template, "standards")) && Get(template, "standards").value.Obj? ==>
              r == Get(template, "standards").value.fields
  {
    var standards := Get(template, "standards");
    if Truthy(standards) then Entries(standards.value) else []
  }

  /** The data the effect stores once the records are built, or the throw. */
  function Stored(built: Result<seq<ComparisonRecord>>): Outcome
  {
    if built.Ok? then Replaced(built.value) else Threw
  }

  /** One run of the page's effect with its inputs made explicit: the
      template id from the route, the two queries, the current tenant and
      the catalog. */
  method CompareToTemplate(templateId: Option<string>, templates: Query, comparison: Query,
                           currentTenant: Option<string>, catalog: seq<CatalogEntry>)
    returns (out: Outcome)
    ensures out.Unchanged? <==> !TemplatesReady(templateId, templates) && !comparison.isError
    ensures !TemplatesReady(templateId, templates) && comparison.isError ==> out == Replaced([])
    ensures TemplatesReady(templateId, templates) ==>
              var found := SelectTemplate(templates.data.value, templateId.value);
              && (found.TypeError? ==> out == Threw)
              && (found == Ok(None) ==> out == Replaced([]))
              && (found.Ok? && found.value.Some? && !ComparisonReady(comparison) ==> out == Replaced([]))
              && (found.Ok? && found.value.Some? && ComparisonReady(comparison) ==>
                    var template := found.value.value;
                    var tenant := SelectTenant(comparison.data.value, currentTenant);
                    && (tenant.TypeError? ==> out == Threw)
                    && (tenant.Ok? ==> out == Stored(Records(DeclaredStandards(template),
                                                   Scope(catalog, tenant.value, TemplateName(template))))))
    ensures out.Replaced? && out.records != [] ==>
              TemplatesReady(templateId, templates) && ComparisonReady(comparison)
  {
    if TemplatesReady(templateId, templates) {
      var found := SelectTemplate(templates.data.value, templateId.value);
      if found.TypeError? {
        return Threw;
      }
      var selectedTemplate := found.value;
      if Truthy(selectedTemplate) && ComparisonReady(comparison) {
        var tenantFound := SelectTenant(comparison.data.value, currentTenant);
        if tenantFound.TypeError? {
          return Threw;
        }
        var currentTenantObj := tenantFound.value;
        var allStandards: seq<ComparisonRecord> := [];
        var standards := Get(selectedTemplate.value, "standards");
        if Truthy(standards) {
          var built := BuildRecords(Entries(standards.value),
                                    Scope(catalog, currentTenantObj, TemplateName(selectedTemplate.value)));
          if built.TypeError? {
            return Threw;
          }
          allStandards := built.value;
        }
        out := Replaced(allStandards);
      } else {
        out := Replaced([]);
      }
    } else if comparison.isError {
      out := Replaced([]);
    } else {
      out := Unchanged;
    }
  }
}
