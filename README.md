# Standards compliance comparison

This project models the core of the tenant standards comparison page of CIPP
(`src/pages/tenant/standards/compare/index.js`). The user picks a standards
template. The page fetches that template and the tenant rows returned by
the standards comparison endpoint, and then builds one comparison record for
each standard the template declares. A record holds:

- the desired settings taken from the template;
- the value observed on the current tenant;
- a verdict, Compliant or Non-Compliant;
- display metadata from the static standards catalog.

While rendering a record whose tenant value is an object, the page also
flags each member that differs from the desired object under the same key.
It chooses a text and a colour for each member.

The model has five modules:

- `JsonValue` (`json.dfy`): JSON values with the JavaScript operations the
  page uses on them. These are truthiness, `a || b`, property access (first
  matching member) and `Object.entries`. `undefined` is `None`. An operation
  that throws a TypeError returns `TypeError`.
- `JsonStringify` (`stringify.dfy`): `JSON.stringify` written out character
  by character. It includes string escaping (`\uXXXX` in lower-case hex for
  control characters) and integer numbers. It comes with the proof that
  serialisation is injective. The page compares values by comparing their
  serialisations, so this result makes "serialised alike" the same as
  "equal values, member order included".
- `StandardsCompare` (`compare.dfy`): the effect that builds the records.
  `BuildRecords` is the loop that pushes one record per declared standard.
  It is proved equal to the specification function `Records`.
  `CompareToTemplate` is one run of the effect. It states when the run
  leaves the page's comparison data as it was, when it replaces it, and
  when it throws a TypeError before storing anything.
- `CompareFacts` (`compare_facts.dfy`) states what a verdict means and which
  defaults fill the metadata.
- `CompareView` (`compare_view.dfy`) holds the render-time difference flag,
  the value formatter and their properties.

Three points where the code behaves differently from what a reader of the
page might expect:

- The comparison is not a deep equality that ignores member order. The code
  compares `JSON.stringify` outputs, and those depend on member order.
  `CompareFacts.MemberOrderMatters` shows a pair of settings that differ
  only in member order and are judged non-compliant.
- The boolean shorthand is not compliant only when `true` is desired. The
  code treats a direct `true` on the tenant row as compliant whatever the
  template asks for (`CompareFacts.DirectTrueComplies`).
- There is no third "unconfigured" status and no per-field difference list
  stored in each record. The code has two statuses, and a missing or falsy
  desired setting becomes `{}`. Differences per field are computed only
  while rendering (`CompareView.ObservedFields`).

## Model

| member | source | states |
|---|---|---|
| JsonValue.Lookup | src/pages/tenant/standards/compare/index.js:105 | property read on an object: found exactly when some member has the key, and then it is the first such member |
| JsonValue.LookupMember | src/pages/tenant/standards/compare/index.js:519 | when keys are distinct, reading a member's key yields that member's value |
| JsonStringify.IntToString | src/pages/tenant/standards/compare/index.js:404 | `String(n)` of an integer: non-empty, starts with `-` exactly for negative numbers, otherwise with a digit |
| JsonStringify.NatToStringValue | src/pages/tenant/standards/compare/index.js:404 | the decimal digits written for a natural number denote that number |
| JsonStringify.Escape | src/pages/tenant/standards/compare/index.js:113 | a character is written as itself (never a bare quote or backslash), as a two-character escape, or as a six-character `\u` escape |
| JsonStringify.Stringify | src/pages/tenant/standards/compare/index.js:113 | `JSON.stringify` output is non-empty and its first character tells null, boolean (and which one), number, string, array and object apart |
| JsonStringify.StringifyInjective | src/pages/tenant/standards/compare/index.js:113-119 | two values serialise to the same string exactly when they are the same value, member order included |
| JsonStringify.StringifyOptInjective | src/pages/tenant/standards/compare/index.js:119 | the same for a value that may be `undefined` (which serialises to `undefined`) |
| JsonStringify.StringifyPrefix | src/pages/tenant/standards/compare/index.js:113 | when each serialisation is followed by text that cannot continue a number, the two texts are equal only if the values are the same and the texts after them are the same; this is how an array or object is read back member by member |
| StandardsCompare.FindBy | src/pages/tenant/standards/compare/index.js:96-98 | `find` with a property test: an element it yields belongs to the list and has the wanted property value |
| StandardsCompare.FindByNone | src/pages/tenant/standards/compare/index.js:96-98 | `find` yields `undefined` exactly when every element is passed over without a hit |
| StandardsCompare.FindByFirst | src/pages/tenant/standards/compare/index.js:96-98 | the element `find` yields is the first one whose property equals the wanted value |
| StandardsCompare.FindByThrows | src/pages/tenant/standards/compare/index.js:96-98 | `find` throws a TypeError exactly when a `null` element is reached before any hit |
| StandardsCompare.FindCatalog | src/pages/tenant/standards/compare/index.js:92 | the first catalog entry with the standard's id, `undefined` exactly when none has it |
| StandardsCompare.SelectTemplate | src/pages/tenant/standards/compare/index.js:77-79 | `find` over the templates: throws when the template list is not an array; a template it yields is in the list and has the wanted `GUID` |
| StandardsCompare.SelectTenant | src/pages/tenant/standards/compare/index.js:85 | `find` over the tenant rows: throws when the rows are not an array; a row it yields is in the list and its `tenantFilter` is the current tenant, or is absent when there is no current tenant |
| StandardsCompare.Declared | src/pages/tenant/standards/compare/index.js:93 | `standards?.[key]`: `undefined` when the configuration has no `standards` or it is `null`; a defined result is a member of the `standards` object under the key |
| StandardsCompare.DirectValue | src/pages/tenant/standards/compare/index.js:105 | `currentTenantObj?.[standardId]`: `undefined` without a tenant row; a defined result is a member of the tenant row under the standard id |
| StandardsCompare.ResultEntry | src/pages/tenant/standards/compare/index.js:86-98 | the results entry: none without a truthy tenant row or with a falsy `standardsResults`; a TypeError when `standardsResults` is truthy but not an array; an entry found carries the standard id |
| StandardsCompare.Verdict | src/pages/tenant/standards/compare/index.js:101-121 | compliant exactly when the direct value is `true`, or the value shown as the tenant's equals the desired settings (member order included) |
| StandardsCompare.ObservedValue | src/pages/tenant/standards/compare/index.js:128 | a defined direct value is the value shown; otherwise the results entry's `value`; with neither, `undefined` |
| StandardsCompare.DisplayName | src/pages/tenant/standards/compare/index.js:127 | the catalog label when present and non-empty, else the standard key |
| StandardsCompare.Details | src/pages/tenant/standards/compare/index.js:131 | the catalog documentation text when present and non-empty, else the description |
| StandardsCompare.Description | src/pages/tenant/standards/compare/index.js:132 | the catalog help text when present, else the empty string |
| StandardsCompare.Impact | src/pages/tenant/standards/compare/index.js:133 | the catalog impact when present and non-empty, else "Medium Impact" |
| StandardsCompare.ImpactColour | src/pages/tenant/standards/compare/index.js:134 | the catalog impact colour when present and non-empty, else "warning" |
| StandardsCompare.TemplateName | src/pages/tenant/standards/compare/index.js:135 | a truthy template name is kept; otherwise "Standard Template" |
| StandardsCompare.Actions | src/pages/tenant/standards/compare/index.js:136 | a truthy `action` is kept, otherwise `[]`; the result is always truthy |
| StandardsCompare.TemplatesReady | src/pages/tenant/standards/compare/index.js:76 | ready exactly when the template id is a non-empty string, the template query succeeded and its data is truthy; ready data is defined and not `null` |
| StandardsCompare.ComparisonReady | src/pages/tenant/standards/compare/index.js:81 | ready only after a successful query, and then its data is defined and not `null` |
| StandardsCompare.DesiredSettings | src/pages/tenant/standards/compare/index.js:93 | throws exactly for a `null` configuration; otherwise truthy: the declared setting when truthy, `{}` when not |
| StandardsCompare.RecordFor | src/pages/tenant/standards/compare/index.js:90-137 | building a record throws exactly when the configuration is `null` or the tenant's results are not a searchable array |
| StandardsCompare.Records | src/pages/tenant/standards/compare/index.js:88-139 | records exist exactly when every declared standard builds; one record per entry, in order, with the entry's standard id |
| StandardsCompare.BuildRecords | src/pages/tenant/standards/compare/index.js:88-138 | the push loop yields exactly `Records`: same length and order, each record's id and actions from its entry; it throws exactly when some entry has a `null` configuration or unreadable results |
| StandardsCompare.DeclaredStandards | src/pages/tenant/standards/compare/index.js:89-90 | a falsy `standards` declares nothing; an object declares its members in order |
| StandardsCompare.CompareToTemplate | src/pages/tenant/standards/compare/index.js:75-147 | data left unchanged exactly when the template is not ready and the comparison query has not failed; a failed query, a missing template or an unready comparison clears it; a throwing lookup throws; otherwise the records of the selected template against the matched tenant row are stored; a non-empty result needs both queries ready |
| CompareFacts.ComplianceMeaning | src/pages/tenant/standards/compare/index.js:101-130 | the verdict rule of `StandardsCompare.Verdict` stated on a built record: compliant exactly when the tenant row holds a direct `true` or the stored tenant value equals the stored desired value |
| CompareFacts.BooleanCaseAgrees | src/pages/tenant/standards/compare/index.js:116-120 | testing a desired `true` with `=== true` decides the same as comparing serialisations |
| CompareFacts.DirectTrueComplies | src/pages/tenant/standards/compare/index.js:108-110 | a direct `true` is compliant and is the value shown |
| CompareFacts.DirectFalseNeverComplies | src/pages/tenant/standards/compare/index.js:111-113 | a direct `false` is never compliant, because the desired settings are never falsy |
| CompareFacts.DirectValueTakesPrecedence | src/pages/tenant/standards/compare/index.js:105-128 | two tenant rows with the same direct value give the same verdict and the same shown value, whatever their results lists hold |
| CompareFacts.NoObservationIsNonCompliant | src/pages/tenant/standards/compare/index.js:114-128 | with neither a direct value nor a results entry the standard is non-compliant and shows no tenant value |
| CompareFacts.NoTenantRowIsNonCompliant | src/pages/tenant/standards/compare/index.js:85-86 | with no matching tenant row every standard with a non-null configuration builds, is non-compliant and shows no tenant value |
| CompareFacts.FalsyDesiredIsEmptyObject | src/pages/tenant/standards/compare/index.js:93 | a missing or falsy desired setting is stored as `{}` |
| CompareFacts.TruthyDesiredIsKept | src/pages/tenant/standards/compare/index.js:93 | a truthy desired setting is stored as declared |
| CompareFacts.UncataloguedDefaults | src/pages/tenant/standards/compare/index.js:127-134 | a standard missing from the catalog is named by its key, with empty details and description, "Medium Impact" and "warning" |
| CompareFacts.MetadataFallbacks | src/pages/tenant/standards/compare/index.js:127-134 | each metadata field falls back on its own: the name to the key, the impact to "Medium Impact" and the colour to "warning" whenever the catalog entry is missing or lacks that field or leaves it empty, and keeps the entry's value otherwise; details and description come from the same entry |
| CompareFacts.MemberOrderMatters | src/pages/tenant/standards/compare/index.js:113 | `{b:2,a:1}` observed against desired `{a:1,b:2}` is non-compliant |
| CompareFacts.DirectFalseOverridesResults | src/pages/tenant/standards/compare/index.js:105-121 | a direct `false` wins over a results entry holding `true` |
| CompareView.DesiredForKey | src/pages/tenant/standards/compare/index.js:517-520 | for an object desired value, its member under the key (`undefined` when it has none); for any other desired value, `undefined` |
| CompareView.IsDifferent | src/pages/tenant/standards/compare/index.js:522-524 | a member is flagged exactly when the desired value is an object holding a different value under that key; missing keys and non-object desired values flag nothing |
| CompareView.Display | src/pages/tenant/standards/compare/index.js:398-404 | `true` reads "Enabled", `false` "Disabled", `null` "null", a number its decimal `String(n)`, a string itself; an object with a truthy `label` shows that label; any other object or array shows its `JSON.stringify` text |
| CompareView.UnlabelledDisplayDistinguishes | src/pages/tenant/standards/compare/index.js:398-399 | two unlabelled objects or arrays are shown alike exactly when they are equal |
| CompareView.FieldText | src/pages/tenant/standards/compare/index.js:542-550 | a `true` member of a compliant record reads "Compliant"; every other member is shown by the value formatter |
| CompareView.FieldColour | src/pages/tenant/standards/compare/index.js:534-536 | error colour exactly for a flagged member of a non-compliant record, success colour exactly for a compliant record |
| CompareView.ObservedFields | src/pages/tenant/standards/compare/index.js:505-516 | one row per member of an object tenant value, in order and keyed by the member's key; no rows for any other tenant value |
| CompareView.MatchingValueFlagsNothing | src/pages/tenant/standards/compare/index.js:516-524 | when the tenant's value is the desired object no member is flagged |
| CompareView.CompliantRecordFlagsNothing | src/pages/tenant/standards/compare/index.js:101-137 | a compliant record not decided by the direct `true` shorthand flags no member |
| CompareView.ScalarDesiredFlagsNothing | src/pages/tenant/standards/compare/index.js:517-520 | a desired value that is not an object flags no member |
| CompareView.ErrorColourMeaning | src/pages/tenant/standards/compare/index.js:522-536 | in a non-compliant record a member is in the error colour exactly when the desired object holds a different value under its key |
| CompareView.PasswordPolicyExample | src/pages/tenant/standards/compare/index.js:516-524 | against desired `{minLength:14, mfa:true}` an observed `minLength` of 8 is flagged and `mfa: true` is not |

## Left out

- React state, hooks and re-rendering are not modelled. One run of the effect is `CompareToTemplate`. Its inputs (route template id, the two query states, the current tenant, the catalog) are parameters. Its result stands for the `setComparisonData` call.
- The API calls themselves, the report dialog, the run-standards action, routing and all MUI layout are not modelled.
- The contents of the standards catalog file are not modelled. The catalog is a parameter.
- Numbers are integers. Floating point values are not modelled, and neither is the exponent form `String` and `JSON.stringify` use from 1e21 up.
- Property reads on arrays and strings, and the entries of arrays and strings, are not modelled. Index keys and built-in properties such as `length` are among them. Such a read gives `undefined` here, and such a value has no entries. This affects `CompareView.DesiredForKey` for an array-valued desired setting and `StandardsCompare.DeclaredStandards` for an array-valued `standards`.
- `JsonValue.Lookup`: returns the first member with the key, whereas a parsed object has distinct keys. `CompareView.MatchingValueFlagsNothing` and `CompareView.CompliantRecordFlagsNothing` assume distinct keys.
- The unused `standardIdWithoutPrefix` (index.js line 104) has no effect and is not modelled.
- `CompareView.Display`: a truthy `label` that is not a string is returned as the value itself. What React does when rendering it is not modelled.
- `CompareView.ObservedFields`: arrays are objects for `typeof`, but the rows for an array-valued tenant value (index keys) are not modelled. Such a value has no rows here.
- The rendering of the desired settings (index.js lines 389-412) is modelled only through the value formatter `CompareView.Display`. Its row list is not modelled.
- JavaScript moves integer-like keys to the front of an object's key order. `JSON.stringify` and `Object.entries` both follow that order. The model keeps members in the order given.
- JavaScript strings are UTF-16. A lone surrogate, which `JSON.stringify` writes as a `\udxxx` escape, has no counterpart among the model's characters, so that escape is not modelled.
- `JsonValue.Get`: a property inherited from `Object.prototype` (a key such as `constructor` read at index.js line 93 or 519) gives `undefined` here, whereas JavaScript returns the inherited function.
