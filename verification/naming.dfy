/**
 * The class-level names of a variant: singular and plural display names,
 * its table, its slug and the conventional name of a field referring to it.
 * Each override is taken when truthy (present and non-empty), otherwise a
 * default derived from the class name is used.
 */
module Naming {
  import opened Wrappers
  import opened Variants

  /** `singular`: `SINGULAR`, or the class name when it is falsy. */
  function Singular(v: Variant): (r: string)
    ensures Truthy(v.singular) ==> r == v.singular.value
    ensures !Truthy(v.singular) ==> r == v.className
    ensures v.className != "" ==> r != ""
  {
    OrElse(v.singular, v.className)
  }

  /** `plural`: `PLURAL`, or the singular name with an "s" appended. Never empty. */
  function Plural(v: Variant): (r: string)
    ensures Truthy(v.plural) ==> r == v.plural.value
    ensures !Truthy(v.plural) ==> |r| == |Singular(v)| + 1 && r[..|Singular(v)|] == Singular(v) && r[|Singular(v)|] == 's'
    ensures r != ""
  {
    OrElse(v.plural, Singular(v) + "s")
  }

  /** `table`: `TABLE_NAME`, or the class name; `SINGULAR` plays no part. */
  function Table(v: Variant): (r: string)
    ensures Truthy(v.tableName) ==> r == v.tableName.value
    ensures !Truthy(v.tableName) ==> r == v.className
    ensures v.className != "" ==> r != ""
  {
    OrElse(v.tableName, v.className)
  }

  /**
   * `item_name`: the slug of the class name. The slugging function lives
   * outside this model, so it is a parameter.
   */
  function ItemName(v: Variant, slug: string -> string): string {
    slug(v.className)
  }

  /** `key_name`: the item name followed by "_key". */
  function KeyName(v: Variant, slug: string -> string): (r: string)
    ensures |r| == |ItemName(v, slug)| + 4
    ensures r[..|r| - 4] == ItemName(v, slug)
    ensures r[|r| - 4..] == "_key"
  {
    ItemName(v, slug) + "_key"
  }

  /** With no plural override, the plural is derived from the effective singular. */
  lemma PluralFollowsSingular(v: Variant)
    requires !Truthy(v.plural)
    ensures Truthy(v.singular) ==> Plural(v) == v.singular.value + "s"
    ensures !Truthy(v.singular) ==> Plural(v) == v.className + "s"
  {
  }

  /** Overriding the singular never changes the table; only `TABLE_NAME` does. */
  lemma TableIgnoresSingular(v: Variant, singular: Option<string>)
    ensures Table(v.(singular := singular)) == Table(v)
    ensures !Truthy(v.tableName) ==> Table(v.(singular := singular)) == v.className
  {
  }

  /** The key name depends on the class name alone, not on any override. */
  lemma KeyNameIgnoresOverrides(v: Variant, singular: Option<string>, plural: Option<string>,
                                tableName: Option<string>, slug: string -> string)
    ensures KeyName(v.(singular := singular, plural := plural, tableName := tableName), slug) == KeyName(v, slug)
  {
  }

  /** A variant `Invoice` with no overrides, and the same with `SINGULAR = "Bill"`. */
  lemma InvoiceNames(fields: seq<Field>, computed: seq<string>)
    ensures var v := Variant("Invoice", None, None, None, fields, computed);
      Singular(v) == "Invoice" && Plural(v) == "Invoices" && Table(v) == "Invoice"
    ensures var v := Variant("Invoice", Some("Bill"), None, None, fields, computed);
      Singular(v) == "Bill" && Plural(v) == "Bills" && Table(v) == "Invoice"
  {
  }
}
