/**
 * Store-facing renderings of an entity: the serialised `key`, the qualified
 * reference string `table_key`, and the schema-only view of a JSON object
 * produced by `model_fields_asjson`.
 */
module Serialize {
  import opened Wrappers
  import opened Variants
  import Naming

  /** `key_serializer`: a falsy key (None or "") is written as null, any other key unchanged. */
  function KeySerializer(key: Option<string>): (r: Option<string>)
    ensures r.None? <==> (key.None? || key.value == "")
    ensures r.Some? ==> r == key
  {
    if Truthy(key) then key else None
  }

  /** The serialised key is never the empty string, and serialising twice changes nothing. */
  lemma KeySerializerNormalises(key: Option<string>)
    ensures KeySerializer(key) != Some("")
    ensures KeySerializer(KeySerializer(key)) == KeySerializer(key)
  {
  }

  /** The `table_key` property: "<table>.<key>". `table_key` formats "<table>.None" for a missing key, so the key must be assigned. */
  function QualifiedKey(v: Variant, key: Option<string>): (r: string)
    requires key.Some?
    ensures |r| == |Naming.Table(v)| + 1 + |key.value|
    ensures r[..|Naming.Table(v)|] == Naming.Table(v)
    ensures r[|Naming.Table(v)|] == '.'
    ensures r[|Naming.Table(v)| + 1..] == key.value
  {
    Naming.Table(v) + "." + key.value
  }

  /** Splits a qualified reference at its first '.', the inverse of `QualifiedKey`. */
  function SplitTableKey(s: string): (r: Option<(string, string)>)
    ensures r.None? <==> '.' !in s
    ensures r.Some? ==> r.value.0 + "." + r.value.1 == s && '.' !in r.value.0
  {
    if |s| == 0 then None
    else if s[0] == '.' then Some(([], s[1..]))
    else match SplitTableKey(s[1..])
      case None => None
      case Some((table, key)) => Some(([s[0]] + table, key))
  }

  /** A dot-free prefix followed by '.' is split off exactly, whatever follows. */
  lemma {:induction false} SplitAfterDotFreePrefix(table: string, key: string)
    requires '.' !in table
    ensures SplitTableKey(table + "." + key) == Some((table, key))
  {
    var s := table + "." + key;
    if |table| > 0 {
      assert s[0] == table[0];
      assert s[1..] == table[1..] + "." + key;
      SplitAfterDotFreePrefix(table[1..], key);
      assert [table[0]] + table[1..] == table;
    } else {
      assert s[1..] == key;
    }
  }

  /** When the table name has no '.', `table_key` can be taken apart again into table and key. */
  lemma QualifiedKeyRoundTrip(v: Variant, key: Option<string>)
    requires key.Some?
    requires '.' !in Naming.Table(v)
    ensures SplitTableKey(QualifiedKey(v, key)) == Some((Naming.Table(v), key.value))
  {
    SplitAfterDotFreePrefix(Naming.Table(v), key.value);
  }

  /** `out` is `data` restricted to the variant's declared and computed field names: the contract of `ModelFieldsAsJson`. */
  ghost predicate IsSchemaView<J>(v: Variant, data: map<string, J>, out: map<string, J>) {
    && (forall k :: k in out <==> k in data && k in SchemaKeys(v))
    && (forall k :: k in out ==> k in data && out[k] == data[k])
  }

  /**
   * `model_fields_asjson`: walks the keys of the JSON object `data` (the
   * output of `asjson`) and keeps those that name a declared or computed
   * field, with their values.
   */
  method ModelFieldsAsJson<J>(v: Variant, data: map<string, J>) returns (result: map<string, J>)
    ensures IsSchemaView(v, data, result)
  {
    var keys := SchemaKeys(v);
    result := map[];
    var pending := data.Keys;
    while pending != {}
      invariant pending <= data.Keys
      invariant forall k :: k in result ==> k in data && k !in pending && k in keys && result[k] == data[k]
      invariant forall k :: k in data && k !in pending && k in keys ==> k in result
      decreases pending
    {
      var k :| k in pending;
      if k in keys {
        result := result[k := data[k]];
      }
      pending := pending - {k};
    }
  }

  /** The schema view of a given object is unique. */
  lemma SchemaViewUnique<J>(v: Variant, data: map<string, J>, a: map<string, J>, b: map<string, J>)
    requires IsSchemaView(v, data, a) && IsSchemaView(v, data, b)
    ensures a == b
  {
  }

  /** Taking the schema view of a schema view gives it back unchanged. */
  lemma SchemaViewIdempotent<J>(v: Variant, data: map<string, J>, once: map<string, J>, twice: map<string, J>)
    requires IsSchemaView(v, data, once)
    requires IsSchemaView(v, once, twice)
    ensures twice == once
  {
  }

  /** Fields outside the schema (extra input tolerated at construction) never reach the view. */
  lemma SchemaViewDropsExtras<J>(v: Variant, declared: map<string, J>, extras: map<string, J>, out: map<string, J>)
    requires forall k :: k in declared ==> k in SchemaKeys(v)
    requires forall k :: k in extras ==> k !in SchemaKeys(v)
    requires IsSchemaView(v, declared + extras, out)
    ensures out == declared
  {
  }
}
