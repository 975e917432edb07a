/**
 * Classification of a variant's declared fields into reference fields:
 * `key_fields` (plain keys), `table_key_fields` (table-qualified keys) and
 * their concatenation `reference_fields`.
 */
module Classify {
  import opened Wrappers
  import opened Variants

  /** `ys` contains the elements of `xs` in the same order, possibly with others between. */
  ghost predicate IsSubsequence(xs: seq<string>, ys: seq<string>)
    decreases |ys|
  {
    if |xs| == 0 then true
    else if |ys| == 0 then false
    else (xs[0] == ys[0] && IsSubsequence(xs[1..], ys[1..])) || IsSubsequence(xs, ys[1..])
  }

  /** Some declared field is named `k` and annotated with a key shape of `kind`. */
  ghost predicate DeclaresOfKind(fields: seq<Field>, k: string, kind: KeyKind) {
    exists i :: 0 <= i < |fields| && fields[i].name == k && fields[i].annotation.Kind() == Some(kind)
  }

  /** Some declared field is named `k` and annotated with any of the eight key shapes. */
  ghost predicate DeclaresReference(fields: seq<Field>, k: string) {
    exists i :: 0 <= i < |fields| && fields[i].name == k && fields[i].annotation.Kind().Some?
  }

  /** The ordered filter of the field names whose annotation is a key shape of `kind`. */
  function NamesOfKind(fields: seq<Field>, kind: KeyKind): (r: seq<string>)
    ensures |r| <= |fields|
  {
    if |fields| == 0 then []
    else if fields[0].annotation.Kind() == Some(kind) then [fields[0].name] + NamesOfKind(fields[1..], kind)
    else NamesOfKind(fields[1..], kind)
  }

  /** A name is selected exactly when a field of that name has a shape of `kind`. */
  lemma {:induction false} NamesOfKindMembers(fields: seq<Field>, kind: KeyKind)
    ensures forall k :: k in NamesOfKind(fields, kind) <==> DeclaresOfKind(fields, k, kind)
  {
    if |fields| > 0 {
      var tail := fields[1..];
      NamesOfKindMembers(tail, kind);
      forall k
        ensures k in NamesOfKind(fields, kind) <==> DeclaresOfKind(fields, k, kind)
      {
        if DeclaresOfKind(tail, k, kind) {
          var i :| 0 <= i < |tail| && tail[i].name == k && tail[i].annotation.Kind() == Some(kind);
          assert fields[i + 1] == tail[i];
        }
        if DeclaresOfKind(fields, k, kind) {
          var i :| 0 <= i < |fields| && fields[i].name == k && fields[i].annotation.Kind() == Some(kind);
          if i > 0 {
            assert tail[i - 1] == fields[i];
          }
        }
      }
    }
  }

  /** The selected names keep their declaration order. */
  lemma {:induction false} NamesOfKindInOrder(fields: seq<Field>, kind: KeyKind)
    ensures IsSubsequence(NamesOfKind(fields, kind), FieldNames(fields))
  {
    if |fields| > 0 {
      var tail := fields[1..];
      NamesOfKindInOrder(tail, kind);
      assert FieldNames(fields)[1..] == FieldNames(tail);
    }
  }

  /** With distinct field names, no name is selected twice. */
  lemma {:induction false} NamesOfKindDistinct(fields: seq<Field>, kind: KeyKind)
    requires DistinctNames(fields)
    ensures NoDuplicates(NamesOfKind(fields, kind))
  {
    if |fields| > 0 {
      var tail := fields[1..];
      assert DistinctNames(tail) by {
        forall i, j | 0 <= i < j < |tail|
          ensures tail[i].name != tail[j].name
        {
          assert tail[i] == fields[i + 1] && tail[j] == fields[j + 1];
        }
      }
      NamesOfKindDistinct(tail, kind);
      if fields[0].annotation.Kind() == Some(kind) {
        NamesOfKindMembers(tail, kind);
        forall i | 0 <= i < |tail|
          ensures tail[i].name != fields[0].name
        {
          assert tail[i] == fields[i + 1];
        }
        var rest := NamesOfKind(tail, kind);
        assert fields[0].name !in rest;
        assert NamesOfKind(fields, kind) == [fields[0].name] + rest;
        forall i, j | 0 <= i < j < |[fields[0].name] + rest|
          ensures ([fields[0].name] + rest)[i] != ([fields[0].name] + rest)[j]
        {
          if i > 0 {
            assert ([fields[0].name] + rest)[i] == rest[i - 1];
          }
        }
      }
    }
  }

  /** The three facts above together: the exact contents, the order, and no repeats. */
  lemma NamesOfKindSpec(fields: seq<Field>, kind: KeyKind)
    ensures forall k :: k in NamesOfKind(fields, kind) <==> DeclaresOfKind(fields, k, kind)
    ensures IsSubsequence(NamesOfKind(fields, kind), FieldNames(fields))
    ensures DistinctNames(fields) ==> NoDuplicates(NamesOfKind(fields, kind))
  {
    NamesOfKindMembers(fields, kind);
    NamesOfKindInOrder(fields, kind);
    if DistinctNames(fields) {
      NamesOfKindDistinct(fields, kind);
    }
  }

  /** Each field is selected for at most one kind, so the two lists together fit in the fields. */
  lemma {:induction false} NamesOfBothKindsBounded(fields: seq<Field>)
    ensures |NamesOfKind(fields, Plain)| + |NamesOfKind(fields, TableQualified)| <= |fields|
  {
    if |fields| > 0 {
      NamesOfBothKindsBounded(fields[1..]);
    }
  }

  /** `key_fields`: the declared names annotated `Key`, `Optional[Key]`, `list[Key]` or `dict[str, Key]`. */
  function KeyFields(v: Variant): (r: seq<string>)
    ensures forall k :: k in r <==> DeclaresOfKind(v.fields, k, Plain)
    ensures IsSubsequence(r, FieldNames(v.fields))
    ensures DistinctNames(v.fields) ==> NoDuplicates(r)
  {
    NamesOfKindSpec(v.fields, Plain);
    NamesOfKind(v.fields, Plain)
  }

  /** `table_key_fields`: the same filter over the four `TableKey` shapes. */
  function TableKeyFields(v: Variant): (r: seq<string>)
    ensures forall k :: k in r <==> DeclaresOfKind(v.fields, k, TableQualified)
    ensures IsSubsequence(r, FieldNames(v.fields))
    ensures DistinctNames(v.fields) ==> NoDuplicates(r)
  {
    NamesOfKindSpec(v.fields, TableQualified);
    NamesOfKind(v.fields, TableQualified)
  }

  /** No field name is both a plain-key field and a table-key field. */
  lemma KeyAndTableKeyFieldsDisjoint(v: Variant)
    requires DistinctNames(v.fields)
    ensures forall k :: k in KeyFields(v) ==> k !in TableKeyFields(v)
  {
  }

  /** `reference_fields`: the plain-key fields followed by the table-key fields. */
  function ReferenceFields(v: Variant): (r: seq<string>)
    ensures |r| == |KeyFields(v)| + |TableKeyFields(v)| <= |v.fields|
    ensures r[..|KeyFields(v)|] == KeyFields(v) && r[|KeyFields(v)|..] == TableKeyFields(v)
    ensures forall k :: k in r <==> DeclaresReference(v.fields, k)
    ensures DistinctNames(v.fields) ==> NoDuplicates(r)
  {
    NamesOfBothKindsBounded(v.fields);
    var r := KeyFields(v) + TableKeyFields(v);
    assert forall k :: k in r <==> DeclaresReference(v.fields, k) by {
      forall k
        ensures k in r <==> DeclaresReference(v.fields, k)
      {
        if DeclaresReference(v.fields, k) {
          var i :| 0 <= i < |v.fields| && v.fields[i].name == k && v.fields[i].annotation.Kind().Some?;
          assert DeclaresOfKind(v.fields, k, v.fields[i].annotation.Kind().value);
        }
      }
    }
    assert DistinctNames(v.fields) ==> NoDuplicates(r) by {
      if DistinctNames(v.fields) {
        KeyAndTableKeyFieldsDisjoint(v);
        var n := |KeyFields(v)|;
        forall i, j | 0 <= i < j < |r|
          ensures r[i] != r[j]
        {
          if j < n {
            assert r[i] == KeyFields(v)[i] && r[j] == KeyFields(v)[j];
          } else if n <= i {
            assert r[i] == TableKeyFields(v)[i - n] && r[j] == TableKeyFields(v)[j - n];
          } else {
            assert r[i] in KeyFields(v) && r[j] in TableKeyFields(v);
          }
        }
      }
    }
    r
  }
}
