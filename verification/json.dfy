/** The fragment of JavaScript value semantics the edge functions depend on:
    parsed JSON values, member access on a parsed body, and truthiness. */
module Json {
  import opened Wrappers

  /** A parsed JSON value. Numbers are integers in this model. */
  datatype Json =
    | JNull
    | JBool(b: bool)
    | JNumber(n: int)
    | JString(s: string)
    | JArray(items: seq<Json>)
    | JObject(members: seq<(string, Json)>)

  /** The value of the last member named `key`, as `JSON.parse` keeps the
      last of duplicate keys; `None` when there is none. */
  function Lookup(members: seq<(string, Json)>, key: string): (r: Option<Json>)
    ensures r.None? <==> forall i :: 0 <= i < |members| ==> members[i].0 != key
    ensures r.Some? ==> exists i :: 0 <= i < |members| && members[i] == (key, r.value)
                                   && forall j :: i < j < |members| ==> members[j].0 != key
  {
    if |members| == 0 then None
    else if members[|members| - 1].0 == key then Some(members[|members| - 1].1)
    else Lookup(members[..|members| - 1], key)
  }

  /** Property access `v.key` / `v?.key` on a parsed value: only objects have
      members, so anything else yields `undefined` (here `None`). */
  function Field(v: Json, key: string): (r: Option<Json>)
    ensures !v.JObject? ==> r.None?
    ensures r.Some? <==> v.JObject? && exists i :: 0 <= i < |v.members| && v.members[i].0 == key
    ensures r.Some? ==> exists i :: 0 <= i < |v.members| && v.members[i] == (key, r.value)
                                   && forall j :: i < j < |v.members| ==> v.members[j].0 != key
  {
    match v
    case JObject(members) => Lookup(members, key)
    case _ => None
  }

  /** JavaScript truthiness of a possibly-undefined value: the falsy values
      of ToBoolean (section 7.1.2 of ECMA-262) that JSON can produce are
      `undefined`, `null`, `false`, `0` and the empty string. */
  predicate Truthy(v: Option<Json>)
    ensures !Truthy(v) <==> v in [None, Some(JNull), Some(JBool(false)), Some(JNumber(0)), Some(JString(""))]
  {
    match v
    case None => false
    case Some(JNull) => false
    case Some(JBool(b)) => b
    case Some(JNumber(n)) => n != 0
    case Some(JString(s)) => s != ""
    case Some(_) => true
  }

  /** `v || fallback`. */
  function OrElse(v: Option<Json>, fallback: Json): (r: Json)
    ensures Truthy(v) ==> Some(r) == v
    ensures !Truthy(v) ==> r == fallback
    ensures Truthy(Some(fallback)) ==> Truthy(Some(r))
  {
    if Truthy(v) then v.value else fallback
  }
}
