/** Values that travel through the request layer: the decoded-JSON-like
    objects a tool receives as arguments and hands to the API client. */
module Values {

  /** A Python value as the tools see it. `Obj` is a `dict` with string keys;
      every other constructor is a value that is not a mapping. */
  datatype Value =
    | Null
    | Bool(b: bool)
    | Int(i: int)
    | Str(s: string)
    | List(items: seq<Value>)
    | Obj(fields: map<string, Value>)

  /** A `Dict[str, Any]`: a request body, a query-parameter map or a response. */
  type Body = map<string, Value>

  /** The flat input of the assembler: the items of a `dict`, in insertion order. */
  type FlatBody = seq<(string, Value)>

  datatype Option<+T> = None | Some(value: T)

  /** The value reached from `v` by following `path` through nested mappings. */
  function Lookup(v: Value, path: seq<string>): Option<Value>
    decreases |path|
  {
    if path == [] then Some(v)
    else if v.Obj? && path[0] in v.fields then Lookup(v.fields[path[0]], path[1..])
    else None
  }

  /** One step of a lookup from a mapping: the first segment picks the entry. */
  lemma LookupStep(m: map<string, Value>, q: seq<string>)
    requires q != []
    ensures Lookup(Obj(m), q) == if q[0] in m then Lookup(m[q[0]], q[1..]) else None
  {
  }

  /** `p` and `q` part ways: neither is a prefix of the other. */
  predicate Diverge(p: seq<string>, q: seq<string>) {
    !(p <= q) && !(q <= p)
  }
}
