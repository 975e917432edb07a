# KeyModel identity and reference model

A Dafny model of the identity and reference-classification logic of
`KeyModel`, the base class of every entity stored in a key-value document
store by `ormspace`. A concrete entity class (a *variant*) is modelled as
plain data (`Variants.Variant`):

- its class name;
- the optional class-level overrides `SINGULAR`, `PLURAL` and `TABLE_NAME`;
- its `model_fields` in declaration order, each a name plus an annotation
  (`Variants.Annotation`: the eight recognised key shapes `Key`,
  `Optional[Key]`, `list[Key]`, `dict[str, Key]` and the same four over
  `TableKey`, plus `Other` for every other annotation);
- the names of its `model_computed_fields`.

The modules follow the parts of the class:

- `Classify` (classify.dfy): `key_fields`, `table_key_fields` and
  `reference_fields`, as ordered filters over the declared fields.
- `Naming` (naming.dfy): `singular`, `plural`, `table`, `item_name` and
  `key_name`. `classname` is the variant's `className` field itself. Each
  override follows Python's `x or default`, which treats None and `""`
  alike (`Variants.Truthy`, `Variants.OrElse`).
- `Serialize` (serialize.dfy): `key_serializer`, `table_key` (as
  `QualifiedKey`) and `model_fields_asjson`.

Inputs that lie outside the model are passed in as parameters:

- `functions.cls_name_to_slug` is a `slug: string -> string` argument of
  `ItemName` and `KeyName`.
- The output of `asjson` is an arbitrary `map<string, J>`. `J` is a type
  parameter standing for JSON values.

Classification recognises eight annotation shapes: four over `Key` and
four over `TableKey`. An annotation outside the eight shapes is not a
reference field (`Other`); there is no error path.

## Model

| member | source | states |
|---|---|---|
| Classify.NamesOfKind | ormspace/key_model.py:47-55 | the ordered filter behind both classifiers selects at most as many names as there are fields |
| Classify.NamesOfKindMembers | ormspace/key_model.py:47-55 | a name is selected if and only if some declared field of that name carries one of the four shapes of the requested key type |
| Classify.NamesOfKindInOrder | ormspace/key_model.py:47-55 | the selected names are a subsequence of the declared field names, so they keep declaration order |
| Classify.NamesOfKindDistinct | ormspace/key_model.py:47-55 | when field names are distinct (dictionary keys), no name is selected twice |
| Classify.NamesOfBothKindsBounded | ormspace/key_model.py:47-60 | every field lands in at most one of the two lists, so their lengths add up to at most the field count |
| Classify.KeyFields | ormspace/key_model.py:45-49 | exactly the declared names annotated `Key`, `Optional[Key]`, `list[Key]` or `dict[str, Key]`, in declaration order, without repeats |
| Classify.TableKeyFields | ormspace/key_model.py:51-55 | exactly the declared names annotated with one of the four `TableKey` shapes, in declaration order, without repeats |
| Classify.KeyAndTableKeyFieldsDisjoint | ormspace/key_model.py:47-55 | no field name appears both among plain-key fields and among table-key fields |
| Classify.ReferenceFields | ormspace/key_model.py:57-60 | the plain-key fields come first and the table-key fields after them; the length is the sum of the two; a name is present exactly when its field has any of the eight key shapes; no repeats |
| Naming.Singular | ormspace/key_model.py:63-65 | a non-empty `SINGULAR` wins, otherwise the class name; never empty for a named class |
| Naming.Plural | ormspace/key_model.py:67-69 | a non-empty `PLURAL` wins, otherwise the singular followed by "s"; never empty |
| Naming.Table | ormspace/key_model.py:71-77 | a non-empty `TABLE_NAME` wins, otherwise the class name (`classname`); never empty for a named class |
| Naming.KeyName | ormspace/key_model.py:82-84 | the item name followed by the suffix "_key" |
| Naming.PluralFollowsSingular | ormspace/key_model.py:63-69 | without a plural override the plural is the `SINGULAR` override plus "s" when one is set, else the class name plus "s" |
| Naming.TableIgnoresSingular | ormspace/key_model.py:71-77 | changing `SINGULAR` never changes the table name |
| Naming.KeyNameIgnoresOverrides | ormspace/key_model.py:82-95 | the key name is derived from the class name alone; no override affects it |
| Naming.InvoiceNames | ormspace/key_model.py:63-77 | `Invoice` yields Invoice/Invoices/Invoice; with `SINGULAR = "Bill"` it yields Bill/Bills/Invoice |
| Serialize.KeySerializer | ormspace/key_model.py:97-101 | the key is written as null exactly when it is None or empty; otherwise it is written unchanged |
| Serialize.KeySerializerNormalises | ormspace/key_model.py:97-101 | the empty string is never written as a key, and serialising an already serialised key changes nothing |
| Serialize.QualifiedKey | ormspace/key_model.py:41-43 | for an assigned key: the table name, then '.', then the key |
| Serialize.QualifiedKeyRoundTrip | ormspace/key_model.py:41-43 | if the table name has no '.', splitting the reference at its first '.' gives back the table and the key |
| Serialize.ModelFieldsAsJson | ormspace/key_model.py:107-114 | the result holds exactly the keys of the input object that name a declared or computed field, each with the input's value |
| Serialize.SchemaViewIdempotent | ormspace/key_model.py:107-114 | restricting an already restricted object returns it unchanged |
| Serialize.SchemaViewDropsExtras | ormspace/key_model.py:107-114 | when the input is the declared fields plus extra fields outside the schema, the result is exactly the declared part |

## Left out

- `asjson` (the pydantic dump and JSON reload): its output is an arbitrary
  input map to `ModelFieldsAsJson`. Pydantic model construction,
  `extra='allow'` and whitespace stripping are left out too.
- `__lt__` and the `search` computed field: they depend on
  `functions.normalize_lower`, on `str(self)` and on a user-supplied
  `SEARCH_FIELD_HANDLER`, none of which is part of this model. `search`
  appears only as a computed-field name.
- `item_name`: `functions.cls_name_to_slug` is not part of this model. It is
  an uninterpreted parameter, so `ItemName` has no contract of its own.
- The `functools.cache` memoisation of the classifiers: caching does not
  change results, so the classifiers are pure functions of the variant. Two
  calls therefore trivially agree.
- The class-level hooks `DATABASE`, `EXIST_QUERY`, `FETCH_QUERY`,
  `EXTRA_DEPENDENTS`, `MODEL_GROUPS`, `Key` and `KeyList`. They are
  persistence plumbing that other code reads.
- The `keys` module: `Key` and `TableKey` appear only as distinct
  annotation constructors. The annotation test is Python's list membership,
  which is an equality test, so any annotation outside the eight shapes is
  `Other`.
- Serialize.QualifiedKey: requires an assigned key. For `key = None`
  `table_key` formats `"<table>.None"`, which the model does not produce.
- `reference_fields` returns a tuple; the model uses a sequence, as for the
  other two classifiers, since only the order and contents matter.
- `ModelFieldsAsJson`: the result is a map, so the order of Python's result
  dict is not modelled. That order is the input's key order.
- `Serialize.SplitTableKey` is a reference inverse used only to state the
  `table_key` round trip. The key-string parser itself is not part of this
  model.
