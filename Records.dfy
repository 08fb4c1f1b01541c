/** The decoded request record and request body. */
module Records {
  import opened Wrappers

  /** A raw feature value as JSON decoding delivers it. `Null` is JSON `null`;
      `Composite` is any JSON array or object. */
  datatype Value = Str(s: string) | Num(x: real) | Bool(b: bool) | Null | Composite

  /** A decoded JSON body: an object, or any other JSON value together with its
      Python truthiness (`[]`, `""`, `0` and `false` are falsy). */
  datatype Body = Object(fields: map<string, Value>) | NonObject(truthy: bool)

  /** `record.get(name)`: the value stored under `name`, if any. */
  function Get(record: map<string, Value>, name: string): (r: Option<Value>)
    ensures r.Some? <==> name in record
    ensures r.Some? ==> r.value == record[name]
  {
    if name in record then Some(record[name]) else None
  }

  /** `not data` in Python: no body, or a body Python treats as false. */
  predicate NoData(body: Option<Body>): (r: bool)
    ensures r <==> body == None || body == Some(Object(map[])) || body == Some(NonObject(false))
  {
    match body
    case None => true
    case Some(Object(fields)) => |fields| == 0
    case Some(NonObject(truthy)) => !truthy
  }

  /** Two records agree on every name of `names`. */
  predicate AgreeOn(names: seq<string>, r1: map<string, Value>, r2: map<string, Value>) {
    forall i :: 0 <= i < |names| ==> Get(r1, names[i]) == Get(r2, names[i])
  }
}
