/**
 * The timestamp normaliser of lib/insert.js: `convertTimestamp` turns one wire
 * timestamp `{_seconds, _nanoseconds}` into a native timestamp, and
 * `convertTimestamps` applies it to the values of the three timestamp keys
 * throughout a JSON tree, building fresh arrays and objects.
 */
module Timestamps {
  import opened Wrappers
  import opened JsonValues

  /** The only keys whose values are candidates for conversion. */
  predicate IsTimestampKey(k: string) {
    k == "pubDate" || k == "updatedDate" || k == "lastModified"
  }

  /** The shape test of `convertTimestamp`: truthy and has a `_seconds` field. */
  predicate HasSeconds(v: Json) {
    Truthy(v) && Property(v, "_seconds").Some?
  }

  /** `_nanoseconds || 0`: a missing or falsy nanosecond count reads as 0. */
  function NanosOrZero(v: Json): (r: Json)
    ensures Truthy(r) ==> Property(v, "_nanoseconds") == Some(r)
    ensures !Truthy(r) ==> r == Num(0.0)
    ensures Property(v, "_nanoseconds").Some? && Truthy(Property(v, "_nanoseconds").value)
            ==> r == Property(v, "_nanoseconds").value
  {
    var n := Property(v, "_nanoseconds");
    if n.Some? && Truthy(n.value) then n.value else Num(0.0)
  }

  /** The wire form of a timestamp, as a Firestore timestamp serialises to JSON. */
  function WireTimestamp(seconds: Json, nanos: Json): Json {
    Obj([Field("_seconds", seconds), Field("_nanoseconds", nanos)])
  }

  /** `convertTimestamp`: a value passing the shape test becomes a native timestamp. */
  function ConvertTimestamp(v: Json): (r: Json)
    ensures HasSeconds(v) ==> r.Native? && Some(r.seconds) == Property(v, "_seconds")
    ensures HasSeconds(v) ==> r.nanos == NanosOrZero(v)
    ensures !HasSeconds(v) ==> r == v
  {
    if HasSeconds(v) then Native(Property(v, "_seconds").value, NanosOrZero(v)) else v
  }

  /** A wire timestamp without `_nanoseconds` converts with a nanosecond count of 0. */
  lemma MissingNanosReadAsZero(seconds: Json)
    ensures ConvertTimestamp(Obj([Field("_seconds", seconds)])) == Native(seconds, Num(0.0))
  {
    var w := Obj([Field("_seconds", seconds)]);
    assert Property(w, "_seconds") == Some(seconds);
    assert w.fields[1..] == [];
    assert Property(w, "_nanoseconds") == None;
  }

  /** Converting the wire form of a timestamp recovers it, with falsy nanoseconds read as 0. */
  lemma WireTimestampRoundTrip(seconds: Json, nanos: Json)
    ensures ConvertTimestamp(WireTimestamp(seconds, nanos))
         == Native(seconds, if Truthy(nanos) then nanos else Num(0.0))
  {
    var w := WireTimestamp(seconds, nanos);
    assert w.fields[0] == Field("_seconds", seconds);
    assert w.fields[1] == Field("_nanoseconds", nanos);
    assert Property(w, "_seconds") == Some(seconds);
    assert w.fields[1..] == [Field("_nanoseconds", nanos)];
    assert Property(w, "_nanoseconds") == Some(nanos);
  }

  /**
   * `convertTimestamps`: arrays are mapped element-wise, objects are copied
   * key by key (converting, recursing into or copying each value), and every
   * other value is returned unchanged.
   */
  function ConvertTimestamps(v: Json): (r: Json)
    ensures v.Arr? <==> r.Arr?
    ensures v.Obj? <==> r.Obj?
    ensures v.Arr? ==> |r.items| == |v.items|
    ensures v.Arr? ==> forall i :: 0 <= i < |v.items| ==> r.items[i] == ConvertTimestamps(v.items[i])
    ensures v.Obj? ==> Keys(r.fields) == Keys(v.fields)
    ensures v.Obj? ==> forall i :: 0 <= i < |v.fields| ==>
      r.fields[i].value == ConvertEntry(v.fields[i].key, v.fields[i].value)
    ensures !IsContainer(v) ==> r == v
    decreases v, 0
  {
    match v
    case Arr(items) =>
      Arr(seq(|items|, i requires 0 <= i < |items| => ConvertTimestamps(items[i])))
    case Obj(fields) =>
      Obj(seq(|fields|, i requires 0 <= i < |fields| =>
        Field(fields[i].key, ConvertEntry(fields[i].key, fields[i].value))))
    case _ => v
  }

  /** The value the loop of `convertTimestamps` stores under `key`. */
  function ConvertEntry(key: string, value: Json): (r: Json)
    ensures IsTimestampKey(key) ==> r == ConvertTimestamp(value)
    ensures !IsTimestampKey(key) && IsContainer(value) ==> r == ConvertTimestamps(value)
    ensures !IsTimestampKey(key) && !IsContainer(value) ==> r == value
    decreases value, 1
  {
    if IsTimestampKey(key) then ConvertTimestamp(value)
    else if IsContainer(value) then ConvertTimestamps(value)
    else value
  }

  /**
   * The normaliser keeps a value's truthiness and whether it has a string form:
   * objects keep their keys, arrays their length, and a timestamp it creates
   * has a string form and sits under a key, never in an array.
   */
  lemma {:induction false} ConvertKeepsStringForm(v: Json)
    ensures HasStringForm(ConvertTimestamps(v)) <==> HasStringForm(v)
    ensures Truthy(ConvertTimestamps(v)) <==> Truthy(v)
    decreases v
  {
    match v
    case Arr(items) =>
      forall i | 0 <= i < |items| {
        ConvertKeepsStringForm(items[i]);
      }
    case _ =>
  }

  /**
   * No wire timestamp is left under a timestamp key, looking through arrays and
   * through the values of other keys, but not inside a timestamp key's value
   * (which the normaliser never descends into).
   */
  predicate Normalized(v: Json)
    decreases v, 0
  {
    match v
    case Arr(items) => forall i :: 0 <= i < |items| ==> Normalized(items[i])
    case Obj(fields) => forall i :: 0 <= i < |fields| ==> EntryNormalized(fields[i].key, fields[i].value)
    case _ => true
  }

  predicate EntryNormalized(key: string, value: Json)
    decreases value, 1
  {
    if IsTimestampKey(key) then !HasSeconds(value)
    else !IsContainer(value) || Normalized(value)
  }

  /** True when no key path in `v` ends in one of the three timestamp keys. */
  predicate NoTimestampKeys(v: Json)
    decreases v
  {
    match v
    case Arr(items) => forall i :: 0 <= i < |items| ==> NoTimestampKeys(items[i])
    case Obj(fields) => forall i :: 0 <= i < |fields| ==>
      !IsTimestampKey(fields[i].key) && NoTimestampKeys(fields[i].value)
    case _ => true
  }

  /** The normaliser converts every wire timestamp it can reach. */
  lemma {:induction false} ConvertTimestampsNormalizes(v: Json)
    ensures Normalized(ConvertTimestamps(v))
    decreases v
  {
    var r := ConvertTimestamps(v);
    match v
    case Arr(items) =>
      forall i | 0 <= i < |items| ensures Normalized(r.items[i]) {
        ConvertTimestampsNormalizes(items[i]);
      }
    case Obj(fields) =>
      forall i | 0 <= i < |fields| ensures EntryNormalized(r.fields[i].key, r.fields[i].value) {
        assert r.fields[i].key == Keys(r.fields)[i] == Keys(fields)[i] == fields[i].key;
        var value := fields[i].value;
        assert value < v by { assert fields[i] in fields; }
        if !IsTimestampKey(fields[i].key) && IsContainer(value) {
          ConvertTimestampsNormalizes(value);
        }
      }
    case _ =>
  }

  /** The normaliser leaves a value unchanged exactly when it is already normalised. */
  lemma {:induction false} ConvertTimestampsFixpoint(v: Json)
    ensures ConvertTimestamps(v) == v <==> Normalized(v)
    decreases v
  {
    if ConvertTimestamps(v) == v {
      ConvertTimestampsNormalizes(v);
    }
    if Normalized(v) {
      NormalizedIsFixed(v);
    }
  }

  lemma {:induction false} NormalizedIsFixed(v: Json)
    requires Normalized(v)
    ensures ConvertTimestamps(v) == v
    decreases v
  {
    var r := ConvertTimestamps(v);
    match v
    case Arr(items) =>
      forall i | 0 <= i < |items| ensures r.items[i] == items[i] {
        NormalizedIsFixed(items[i]);
      }
      assert r.items == items;
    case Obj(fields) =>
      forall i | 0 <= i < |fields| ensures r.fields[i] == fields[i] {
        assert r.fields[i].key == Keys(r.fields)[i] == Keys(fields)[i] == fields[i].key;
        var value := fields[i].value;
        assert value < v by { assert fields[i] in fields; }
        assert EntryNormalized(fields[i].key, value);
        if !IsTimestampKey(fields[i].key) && IsContainer(value) {
          NormalizedIsFixed(value);
        }
      }
      assert r.fields == fields;
    case _ =>
  }

  /** Normalising twice is the same as normalising once. */
  lemma ConvertTimestampsIdempotent(v: Json)
    ensures ConvertTimestamps(ConvertTimestamps(v)) == ConvertTimestamps(v)
  {
    ConvertTimestampsNormalizes(v);
    NormalizedIsFixed(ConvertTimestamps(v));
  }

  /** A value in which no timestamp key occurs comes back unchanged. */
  lemma {:induction false} NoTimestampKeysUnchanged(v: Json)
    requires NoTimestampKeys(v)
    ensures ConvertTimestamps(v) == v
  {
    NoTimestampKeysNormalized(v);
    NormalizedIsFixed(v);
  }

  lemma {:induction false} NoTimestampKeysNormalized(v: Json)
    requires NoTimestampKeys(v)
    ensures Normalized(v)
    decreases v
  {
    match v
    case Arr(items) =>
      forall i | 0 <= i < |items| ensures Normalized(items[i]) {
        NoTimestampKeysNormalized(items[i]);
      }
    case Obj(fields) =>
      forall i | 0 <= i < |fields| ensures EntryNormalized(fields[i].key, fields[i].value) {
        var value := fields[i].value;
        assert value < v by { assert fields[i] in fields; }
        NoTimestampKeysNormalized(value);
      }
    case _ =>
  }

  /*
   * The copy loop of `convertTimestamps` as written.  The assignment
   * `converted[key] = ...` with the key "__proto__" runs JavaScript's
   * prototype setter instead of creating a field, so that key is missing from
   * the copy even though `JSON.parse` gives parsed objects such a field.  (An
   * object or null value also becomes the copy's prototype; the model does not
   * track prototypes.)  The rest of the model uses ConvertTimestamps, which
   * keeps every key.
   */

  /** The own fields that survive the assignments of the copy loop. */
  function OwnFields(fields: seq<Field>): (r: seq<Field>)
    ensures forall f :: f in r <==> f in fields && f.key != "__proto__"
  {
    if fields == [] then []
    else if fields[0].key == "__proto__" then OwnFields(fields[1..])
    else [fields[0]] + OwnFields(fields[1..])
  }

  function ConvertTimestampsAsWritten(v: Json): (r: Json)
    ensures v.Obj? <==> r.Obj?
    ensures r.Obj? ==> "__proto__" !in Keys(r.fields)
    decreases v, 0
  {
    match v
    case Arr(items) =>
      Arr(seq(|items|, i requires 0 <= i < |items| => ConvertTimestampsAsWritten(items[i])))
    case Obj(fields) =>
      var r := OwnFields(seq(|fields|, i requires 0 <= i < |fields| =>
        Field(fields[i].key, ConvertEntryAsWritten(fields[i].key, fields[i].value))));
      assert forall i :: 0 <= i < |r| ==> r[i] in r;
      Obj(r)
    case _ => v
  }

  function ConvertEntryAsWritten(key: string, value: Json): Json
    decreases value, 1
  {
    if IsTimestampKey(key) then ConvertTimestamp(value)
    else if IsContainer(value) then ConvertTimestampsAsWritten(value)
    else value
  }

  /** True when no object anywhere in `v` has a "__proto__" key. */
  predicate NoProtoKeys(v: Json)
    decreases v
  {
    match v
    case Arr(items) => forall i :: 0 <= i < |items| ==> NoProtoKeys(items[i])
    case Obj(fields) => forall i :: 0 <= i < |fields| ==>
      fields[i].key != "__proto__" && NoProtoKeys(fields[i].value)
    case _ => true
  }

  /** A parsed object with a "__proto__" field loses it in the as-written copy. */
  lemma ProtoKeyDropped()
    ensures var v := Obj([Field("__proto__", Num(1.0))]);
      ConvertTimestampsAsWritten(v) == Obj([]) && ConvertTimestamps(v) == v
  {
    var v := Obj([Field("__proto__", Num(1.0))]);
    assert NoTimestampKeys(v);
    NoTimestampKeysUnchanged(v);
    var copied := seq(1, i requires 0 <= i < 1 =>
      Field(v.fields[i].key, ConvertEntryAsWritten(v.fields[i].key, v.fields[i].value)));
    assert copied == [Field("__proto__", Num(1.0))];
    assert OwnFields(copied) == [];
  }

  lemma OwnFieldsUnchanged(fields: seq<Field>)
    requires forall i :: 0 <= i < |fields| ==> fields[i].key != "__proto__"
    ensures OwnFields(fields) == fields
  {
    if fields != [] {
      OwnFieldsUnchanged(fields[1..]);
    }
  }

  /** Where no "__proto__" key occurs, the as-written copy and the corrected one agree. */
  lemma {:induction false} AsWrittenAgreesWithoutProtoKeys(v: Json)
    requires NoProtoKeys(v)
    ensures ConvertTimestampsAsWritten(v) == ConvertTimestamps(v)
    decreases v
  {
    match v
    case Arr(items) =>
      forall i | 0 <= i < |items|
        ensures ConvertTimestampsAsWritten(items[i]) == ConvertTimestamps(items[i])
      {
        AsWrittenAgreesWithoutProtoKeys(items[i]);
      }
      assert ConvertTimestampsAsWritten(v).items == ConvertTimestamps(v).items;
    case Obj(fields) =>
      var copied := seq(|fields|, i requires 0 <= i < |fields| =>
        Field(fields[i].key, ConvertEntryAsWritten(fields[i].key, fields[i].value)));
      forall i | 0 <= i < |fields| ensures copied[i] == ConvertTimestamps(v).fields[i] {
        assert ConvertTimestamps(v).fields[i].key == Keys(ConvertTimestamps(v).fields)[i] == fields[i].key;
        var value := fields[i].value;
        assert value < v by { assert fields[i] in fields; }
        if !IsTimestampKey(fields[i].key) && IsContainer(value) {
          AsWrittenAgreesWithoutProtoKeys(value);
        }
      }
      OwnFieldsUnchanged(copied);
      assert copied == ConvertTimestamps(v).fields;
    case _ =>
  }
}
