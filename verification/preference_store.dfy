/** The preference store's read transformer (pkg/api/store/preference/store.go):
    a preference's id is stored as "<namespaceId>:<name>", and the API shows
    it without the namespace, as both its id and its name. */
module PreferenceStore {
  import opened Wrappers
  import opened Text

  /** The field names the transformer reads and writes. */
  const NamespaceIdField := "namespaceId"
  const IdField := "id"
  const NameField := "name"

  /** A resource as a field map; `convert.ToString` of an absent field is "". */
  type Data = map<string, string>

  function Field(data: Data, key: string): string {
    if key in data then data[key] else ""
  }

  function Transform(data: Option<Data>): (r: Option<Data>)
    ensures data.None? <==> r.None?
    ensures data.Some? ==>
              var d := data.value;
              var ns := Field(d, NamespaceIdField);
              var id := Field(d, IdField);
              && r.value.Keys == d.Keys + {IdField, NameField}
              && r.value[IdField] == r.value[NameField]
              && (HasPrefix(id, ns + ":") ==> id == ns + ":" + r.value[IdField])
              && (!HasPrefix(id, ns + ":") ==> r.value[IdField] == id)
              && forall key :: key in d && key != IdField && key != NameField ==> r.value[key] == d[key]
  {
    match data
    case None => None
    case Some(d) =>
      var ns := Field(d, NamespaceIdField);
      var id := TrimPrefix(Field(d, IdField), ns + ":");
      Some(d[NameField := id][IdField := id])
  }

  /** A stored id "<ns>:<name>" is shown as "<name>", whatever the name holds. */
  lemma TransformStripsNamespace(d: Data, ns: string, name: string)
    requires NamespaceIdField in d && d[NamespaceIdField] == ns
    requires IdField in d && d[IdField] == ns + ":" + name
    ensures Transform(Some(d)).value[IdField] == name
    ensures Transform(Some(d)).value[NameField] == name
    ensures Transform(Some(d)).value[NamespaceIdField] == ns
  {
    assert HasPrefix(ns + ":" + name, ns + ":");
  }

  /** Only one namespace prefix is removed: a name that itself starts with
      the prefix keeps it. */
  lemma TransformStripsOnce(d: Data, ns: string, name: string)
    requires NamespaceIdField in d && d[NamespaceIdField] == ns
    requires IdField in d && d[IdField] == ns + ":" + ns + ":" + name
    ensures Transform(Some(d)).value[IdField] == ns + ":" + name
  {
    assert ns + ":" + ns + ":" + name == (ns + ":") + (ns + ":" + name);
    assert HasPrefix(d[IdField], ns + ":");
  }

  /** An id with no namespace prefix is shown unchanged, and a second pass
      over the result changes nothing more. */
  lemma TransformWithoutPrefix(d: Data)
    requires !HasPrefix(Field(d, IdField), Field(d, NamespaceIdField) + ":")
    ensures Transform(Some(d)).value[IdField] == Field(d, IdField)
    ensures Transform(Transform(Some(d))) == Transform(Some(d))
  {
    var r := Transform(Some(d)).value;
    assert Field(r, NamespaceIdField) == Field(d, NamespaceIdField);
    assert Field(r, IdField) == Field(d, IdField);
    assert r[NameField := r[IdField]][IdField := r[IdField]] == r;
  }
}
