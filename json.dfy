/** JSON values as the comparison page receives them from its two queries,
    together with the few JavaScript operations the page applies to them:
    truthiness, `a || b`, property access and `Object.entries`. */
module JsonValue {

  /** A value parsed from JSON. Numbers are integers; an object keeps its
      members in insertion order, which `JSON.stringify` and
      `Object.entries` both follow. */
  datatype Json =
    | Null
    | Bool(b: bool)
    | Num(n: int)
    | Str(s: string)
    | Arr(items: seq<Json>)
    | Obj(fields: seq<(string, Json)>)

  /** A JavaScript value that may be `undefined` (None). */
  datatype Option<+T> = None | Some(value: T)

  /** The value of an expression that may throw a TypeError instead
      (a property read on `null`, `.find` on something that is not an array). */
  datatype Result<+T> = Ok(value: T) | TypeError

  /** JavaScript falsiness restricted to JSON values: `undefined`, `null`,
      `false`, `0` and the empty string. */
  predicate Falsy(v: Option<Json>)
  {
    match v
    case None => true
    case Some(Null) => true
    case Some(Bool(b)) => !b
    case Some(Num(n)) => n == 0
    case Some(Str(s)) => s == ""
    case Some(_) => false
  }

  predicate Truthy(v: Option<Json>)
  {
    !Falsy(v)
  }

  /** `a || b`: the left operand when it is truthy, else the right one. */
  function Or(a: Option<Json>, b: Json): Json
  {
    if Truthy(a) then a.value else b
  }

  /** The first member of an object whose key is `key`. */
  function Lookup(fields: seq<(string, Json)>, key: string): (r: Option<Json>)
    ensures r.Some? <==> exists i :: 0 <= i < |fields| && fields[i].0 == key
    ensures r.Some? ==> exists i :: 0 <= i < |fields| && fields[i] == (key, r.value) &&
                                    forall j :: 0 <= j < i ==> fields[j].0 != key
  {
    if fields == [] then None
    else if fields[0].0 == key then Some(fields[0].1)
    else
      var r := Lookup(fields[1..], key);
      assert forall i :: 0 < i < |fields| ==> fields[i] == fields[1..][i - 1];
      r
  }

  /** `v[key]` on a value that is neither `null` nor `undefined`: a member of
      an object, `undefined` for anything else. */
  function Get(v: Json, key: string): Option<Json>
  {
    if v.Obj? then Lookup(v.fields, key) else None
  }

  /** `Object.entries(v)` of an object; other values have no entries here. */
  function Entries(v: Json): seq<(string, Json)>
  {
    if v.Obj? then v.fields else []
  }

  /** JSON.parse never produces two members with the same key. */
  predicate DistinctKeys(fields: seq<(string, Json)>)
  {
    forall i, j :: 0 <= i < j < |fields| ==> fields[i].0 != fields[j].0
  }

  /** In an object whose keys are distinct, looking up the key of a member
      finds that member's value. */
  lemma LookupMember(fields: seq<(string, Json)>, i: nat)
    requires DistinctKeys(fields)
    requires i < |fields|
    ensures Lookup(fields, fields[i].0) == Some(fields[i].1)
  {
  }
}
