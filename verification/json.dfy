/** The values Python's `json.loads` produces, and the dictionary operations the
    modelled code applies to them. Parsing itself stays abstract: every operation
    that parses takes a `Parser`, whose `None` stands for a raised decode error. */
module Json {
  import opened Wrappers

  datatype Json =
    | JNull
    | JBool(b: bool)
    | JNum(n: real)
    | JStr(s: string)
    | JArr(items: seq<Json>)
    | JObj(fields: seq<(string, Json)>)

  type Parser = string -> Option<Json>

  /** The empty object `{}`. */
  const EmptyObject: Json := JObj([])

  /** Python's `d.get(key)` on a decoded object: with repeated keys the last one wins,
      as in `json.loads`. */
  function Lookup(fields: seq<(string, Json)>, key: string): (r: Option<Json>)
    ensures r.Some? <==> exists k :: 0 <= k < |fields| && fields[k].0 == key
    ensures r.Some? ==> exists k :: 0 <= k < |fields| && fields[k] == (key, r.value)
                                   && forall j :: k < j < |fields| ==> fields[j].0 != key
  {
    if |fields| == 0 then None
    else if fields[|fields| - 1].0 == key then Some(fields[|fields| - 1].1)
    else Lookup(fields[..|fields| - 1], key)
  }

  /** Python's `float(v)` on a decoded value: numbers and booleans convert, strings
      go through `parseReal` (abstract: `float("8.5")`), anything else raises (`None`). */
  function ToReal(v: Json, parseReal: string -> Option<real>): (r: Option<real>)
    ensures v.JNum? ==> r == Some(v.n)
    ensures (v.JNull? || v.JArr? || v.JObj?) ==> r.None?
  {
    match v
    case JNum(n) => Some(n)
    case JBool(b) => Some(if b then 1.0 else 0.0)
    case JStr(s) => parseReal(s)
    case _ => None
  }

  /** An object of numeric fields, as Python's literal metric dictionaries. */
  function NumberObject(entries: seq<(string, real)>): (r: Json)
    ensures r.JObj? && |r.fields| == |entries|
    ensures forall k :: 0 <= k < |entries| ==> r.fields[k] == (entries[k].0, JNum(entries[k].1))
  {
    JObj(seq(|entries|, k requires 0 <= k < |entries| => (entries[k].0, JNum(entries[k].1))))
  }
}
