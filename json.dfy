/** Option and Result, the failure-compatible wrappers used throughout the model. */
module Wrappers {
  datatype Option<+T> = None | Some(value: T)

  datatype Result<+T, +E> = Ok(value: T) | Err(error: E)
}

/**
 * The JSON values the utilities manipulate: what `JSON.parse` produces, plus
 * the database's native timestamp, which only the timestamp normaliser creates.
 */
module JsonValues {
  import opened Wrappers

  /**
   * An object's fields are kept as an ordered list of key/value pairs in the
   * order `Object.entries` enumerates them.  `Native` stands for a Firestore
   * `Timestamp` built from a wire timestamp: it records the `_seconds` value
   * and the (defaulted) `_nanoseconds` value it was built from, and leaves the
   * millisecond arithmetic of `Timestamp.fromMillis` opaque.
   */
  datatype Json =
    | Null
    | Bool(b: bool)
    | Num(n: real)
    | Str(s: string)
    | Arr(items: seq<Json>)
    | Obj(fields: seq<Field>)
    | Native(seconds: Json, nanos: Json)

  datatype Field = Field(key: string, value: Json)

  /** JavaScript truthiness of a value (JSON numbers are never NaN). */
  predicate Truthy(v: Json) {
    match v
    case Null => false
    case Bool(b) => b
    case Num(n) => n != 0.0
    case Str(s) => s != ""
    case _ => true
  }

  /**
   * Converting `v` to text, as a template literal `${v}` does, succeeds.  An
   * object with its own `toString` key has no callable `toString` (a parsed
   * value is never a function) and its inherited `valueOf` returns the object
   * itself, so the conversion throws a TypeError; an array is converted by
   * `join`, which converts each element.  Every other value, the database's
   * timestamp included, has a string form.
   */
  predicate HasStringForm(v: Json) {
    match v
    case Obj(fields) => "toString" !in Keys(fields)
    case Arr(items) => forall i :: 0 <= i < |items| ==> HasStringForm(items[i])
    case _ => true
  }

  /** `typeof v === "object" && v !== null` for a parsed JSON value. */
  predicate IsContainer(v: Json) {
    v.Arr? || v.Obj?
  }

  /** The keys of an object, in enumeration order. */
  function Keys(fields: seq<Field>): (ks: seq<string>)
    ensures |ks| == |fields|
    ensures forall i :: 0 <= i < |fields| ==> ks[i] == fields[i].key
  {
    seq(|fields|, i requires 0 <= i < |fields| => fields[i].key)
  }

  /** The value stored under key `k`, if the object has that key. */
  function Lookup(fields: seq<Field>, k: string): (r: Option<Json>)
    ensures r.Some? <==> k in Keys(fields)
    ensures r.Some? ==> exists i :: 0 <= i < |fields| && fields[i] == Field(k, r.value)
  {
    if fields == [] then None
    else if fields[0].key == k then Some(fields[0].value)
    else
      var r := Lookup(fields[1..], k);
      assert Keys(fields) == [fields[0].key] + Keys(fields[1..]);
      if r.Some? then
        var j :| 0 <= j < |fields[1..]| && fields[1..][j] == Field(k, r.value);
        assert fields[j + 1] == Field(k, r.value);
        r
      else r
  }

  /**
   * The property read `v[k]` for the keys the utilities read (`_seconds`,
   * `_nanoseconds`, `slug`): only objects have such own properties; arrays,
   * strings, numbers and booleans yield `undefined`, here `None`.
   */
  function Property(v: Json, k: string): (r: Option<Json>)
    ensures r.Some? ==> v.Obj? && k in Keys(v.fields)
  {
    if v.Obj? then Lookup(v.fields, k) else None
  }
}
