/** The source reference of a Kustomization and what it resolves to.  getSource, the
    watch index and the dependency gate each resolve it in their own words. */
module SourceRefs {

  datatype Key = Key(namespace: string, name: string)

  datatype SourceRef = SourceRef(kind: string, namespace: string, name: string)

  /** A source object, by kind and key. */
  datatype SourceId = SourceId(kind: string, key: Key)

  /** getSource: the namespace of the reference, or else that of the Kustomization. */
  function Resolve(owner: Key, ref: SourceRef): (id: SourceId)
    ensures id.kind == ref.kind && id.key.name == ref.name
    ensures ref.namespace != "" ==> id.key.namespace == ref.namespace
    ensures ref.namespace == "" ==> id.key.namespace == owner.namespace
  {
    var namespace := if ref.namespace != "" then ref.namespace else owner.namespace;
    SourceId(ref.kind, Key(namespace, ref.name))
  }
}
