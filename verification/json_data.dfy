/** Decoded JSON values, with the few Python behaviours the normaliser relies on:
    truthiness, `dict.get` and iteration with `for`. */
module JsonData {
  import opened Wrappers

  /** A decoded JSON value. An object keeps its members in document order; a key
      may repeat, and then the last binding is the one a lookup sees. */
  datatype Json =
    | Null
    | Bool(b: bool)
    | Num(n: real)
    | Str(s: string)
    | Arr(items: seq<Json>)
    | Obj(members: seq<(string, Json)>)

  /** Python truthiness: `None`, `False`, zero and empty containers are false. */
  predicate Truthy(j: Json) {
    match j
    case Null => false
    case Bool(b) => b
    case Num(n) => n != 0.0
    case Str(s) => |s| > 0
    case Arr(items) => |items| > 0
    case Obj(members) => |members| > 0
  }

  /** The value bound to `key` in a member list, the last binding winning. */
  function Lookup(members: seq<(string, Json)>, key: string): (r: Option<Json>)
    ensures r.None? <==> forall i :: 0 <= i < |members| ==> members[i].0 != key
    ensures r.Some? ==> exists i :: 0 <= i < |members| && members[i] == (key, r.value)
                                  && forall j :: i < j < |members| ==> members[j].0 != key
  {
    if |members| == 0 then None
    else if members[|members| - 1].0 == key then Some(members[|members| - 1].1)
    else Lookup(members[..|members| - 1], key)
  }

  /** `obj.get(key, default)` on a mapping. */
  function Get(obj: Json, key: string, default: Json): Json
    requires obj.Obj?
  {
    match Lookup(obj.members, key)
    case Some(v) => v
    case None => default
  }

  /** The items `for x in j` visits, or `None` when Python raises `TypeError`
      because the value is not iterable. A string yields its characters as
      one-character strings and a mapping yields its keys. */
  function Iterate(j: Json): (r: Option<seq<Json>>)
    ensures j.Arr? ==> r == Some(j.items)
    ensures r.Some? ==> forall i :: 0 <= i < |r.value| ==> j.Arr? || r.value[i].Str?
    ensures r.None? <==> j.Null? || j.Bool? || j.Num?
  {
    match j
    case Arr(items) => Some(items)
    case Str(s) => Some(seq(|s|, i requires 0 <= i < |s| => Str([s[i]])))
    case Obj(members) => Some(seq(|members|, i requires 0 <= i < |members| => Str(members[i].0)))
    case _ => None
  }
}
