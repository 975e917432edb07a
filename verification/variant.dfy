/**
 * A model of one concrete `KeyModel` subclass (a "variant") as plain data:
 * its class name, its class-level naming overrides, its declared fields with
 * their type annotations, and the names of its computed fields.
 */
module Variants {
  import opened Wrappers

  /** Which of the two key types of the `keys` module an annotation refers to. */
  datatype KeyKind = Plain | TableQualified

  /**
   * A field's type annotation. The eight recognised key shapes are
   * `Key`, `Optional[Key]`, `list[Key]`, `dict[str, Key]` and the same four
   * over `TableKey`; every other annotation is `Other`. Recognition is an
   * equality test against these eight, so the set is closed: a new wrapper
   * of keys is `Other`.
   */
  datatype Annotation =
    | Key | OptionalKey | ListOfKey | DictOfKey
    | TableKey | OptionalTableKey | ListOfTableKey | DictOfTableKey
    | Other
  {
    /** The key type this annotation holds, if it is one of the eight shapes. */
    function Kind(): (r: Option<KeyKind>)
      ensures r.None? <==> Other?
    {
      match this
      case Key | OptionalKey | ListOfKey | DictOfKey => Some(Plain)
      case TableKey | OptionalTableKey | ListOfTableKey | DictOfTableKey => Some(TableQualified)
      case Other => None
    }
  }

  /** One entry of `model_fields`: a field name and its annotation. */
  datatype Field = Field(name: string, annotation: Annotation)

  /**
   * A variant: `className` is `__name__`; `singular`, `plural` and
   * `tableName` are the `SINGULAR`, `PLURAL` and `TABLE_NAME` class
   * variables (None when left at their default); `fields` are the entries of
   * `model_fields` in declaration order (inherited `key` included);
   * `computed` are the names of `model_computed_fields` (`search` included).
   */
  datatype Variant = Variant(
    className: string,
    singular: Option<string>,
    plural: Option<string>,
    tableName: Option<string>,
    fields: seq<Field>,
    computed: seq<string>)

  /** Python truthiness of an optional string: present and non-empty. */
  predicate Truthy(o: Option<string>) {
    o.Some? && o.value != ""
  }

  /**
   * Python's `o or fallback` for an optional string: the result is either
   * the override or the fallback, and it is never empty unless the
   * fallback is.
   */
  function OrElse(o: Option<string>, fallback: string): (r: string)
    ensures o == Some(r) || r == fallback
    ensures fallback != "" ==> r != ""
  {
    if Truthy(o) then o.value else fallback
  }

  /** The keys of `model_fields`, in declaration order. */
  function FieldNames(fields: seq<Field>): (r: seq<string>)
    ensures |r| == |fields|
    ensures forall i :: 0 <= i < |fields| ==> r[i] == fields[i].name
  {
    if |fields| == 0 then [] else [fields[0].name] + FieldNames(fields[1..])
  }

  /** The names `model_fields_asjson` keeps: declared fields, then computed ones. */
  function SchemaKeys(v: Variant): seq<string> {
    FieldNames(v.fields) + v.computed
  }

  ghost predicate NoDuplicates(s: seq<string>) {
    forall i, j :: 0 <= i < j < |s| ==> s[i] != s[j]
  }

  /** Field names are the keys of a dictionary, so no name is declared twice. */
  ghost predicate DistinctNames(fields: seq<Field>) {
    NoDuplicates(FieldNames(fields))
  }
}
