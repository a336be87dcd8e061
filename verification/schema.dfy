/** The GETS target schema: an ordered table of canonical fields and a table of
    weighted categories. It is loaded from a declarative file outside the core, so
    here it is a value every stage receives. */
module Schema {
  import opened JsValues
  import opened Seqs

  datatype FieldType = TString | TNumber | TDate | TBoolean

  /** One canonical field: its dotted or line-scoped path (`invoice.currency`,
      `lines[].qty`), expected type, required flag and category. */
  datatype FieldSpec = FieldSpec(path: string, fieldType: FieldType, required: bool, category: string)

  datatype Category = Category(name: string, weight: real)

  /** `fields` is in the schema file's key order (Object.keys), `categories` in its
      entry order (Object.entries). */
  datatype Gets = Gets(fields: seq<FieldSpec>, categories: seq<Category>)

  function Paths(fields: seq<FieldSpec>): (r: seq<string>)
    ensures |r| == |fields|
    ensures forall i :: 0 <= i < |fields| ==> r[i] == fields[i].path
  {
    seq(|fields|, i requires 0 <= i < |fields| => fields[i].path)
  }

  function CategoryNames(categories: seq<Category>): seq<string>
  {
    seq(|categories|, i requires 0 <= i < |categories| => categories[i].name)
  }

  /** What a schema file can describe: field keys and category keys are unique
      (they are JSON object keys), every field names a declared category, and
      weights are positive. */
  predicate WellFormed(schema: Gets)
  {
    Distinct(Paths(schema.fields)) &&
    Distinct(CategoryNames(schema.categories)) &&
    (forall i :: 0 <= i < |schema.fields| ==> schema.fields[i].category in CategoryNames(schema.categories)) &&
    (forall i :: 0 <= i < |schema.categories| ==> schema.categories[i].weight > 0.0)
  }

  /** `getsSchema.fields[path]`: None stands for `undefined`. */
  function Lookup(fields: seq<FieldSpec>, path: string): (r: Option<FieldSpec>)
    ensures r.Some? ==> r.value in fields && r.value.path == path
    ensures r.None? <==> path !in Paths(fields)
    decreases |fields|
  {
    if fields == [] then None
    else if fields[0].path == path then Some(fields[0])
    else
      assert Paths(fields) == [fields[0].path] + Paths(fields[1..]);
      Lookup(fields[1..], path)
  }

  /** With unique paths, looking a field's own path up finds that field. */
  lemma {:induction false} LookupOwnPath(fields: seq<FieldSpec>, i: nat)
    requires Distinct(Paths(fields)) && i < |fields|
    ensures Lookup(fields, fields[i].path) == Some(fields[i])
    decreases |fields|
  {
    if i > 0 {
      assert Paths(fields[1..]) == Paths(fields)[1..];
      assert fields[0].path != fields[i].path by {
        assert Paths(fields)[0] != Paths(fields)[i];
      }
      LookupOwnPath(fields[1..], i - 1);
    }
  }
}
