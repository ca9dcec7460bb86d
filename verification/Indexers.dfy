/** internal/controller/kustomization_indexers.go, source_predicate.go and the reference
    resolution of getSource: which Kustomizations a new revision of a source reaches. */
module Indexers {
  import opened Text
  import opened SourceRefs

  datatype Kustomization = Kustomization(key: Key, source: SourceRef, ready: bool, reconciling: bool,
                                         lastAttempted: string)

  /** Kubernetes names and namespaces contain no slash. */
  ghost predicate ValidKey(k: Key) {
    '/' !in k.namespace && '/' !in k.name
  }

  ghost predicate ValidRefs(k: Kustomization) {
    ValidKey(k.key) && '/' !in k.source.namespace && '/' !in k.source.name
  }

  function KeyString(k: Key): string {
    Join([k.namespace, k.name], '/')
  }

  lemma KeyStringInjective(a: Key, b: Key)
    requires ValidKey(a) && ValidKey(b) && KeyString(a) == KeyString(b)
    ensures a == b
  {
    JoinInjective([a.namespace, a.name], [b.namespace, b.name], '/');
    assert [a.namespace, a.name][0] == [b.namespace, b.name][0];
    assert [a.namespace, a.name][1] == [b.namespace, b.name][1];
  }

  // ------------------------------------------------------------ index and lookup

  function IndexBy(kind: string, k: Kustomization): seq<string> {
    if k.source.kind == kind then
      var namespace := if k.source.namespace != "" then k.source.namespace else k.key.namespace;
      [KeyString(Key(namespace, k.source.name))]
    else []
  }

  /** The index of a kind holds a source's key exactly for the Kustomizations whose reference
      resolves to that source. */
  lemma IndexAgrees(kind: string, source: Key, k: Kustomization)
    requires ValidKey(source) && ValidRefs(k)
    ensures KeyString(source) in IndexBy(kind, k) <==> Resolve(k.key, k.source) == SourceId(kind, source)
  {
    if KeyString(source) in IndexBy(kind, k) {
      KeyStringInjective(source, Resolve(k.key, k.source).key);
    }
  }

  const Kinds := {"OCIRepository", "GitRepository", "Bucket", "ExternalArtifact"}

  datatype Lookup = Denied | NotSupported | Get(source: SourceId)

  /** getSource, up to the read it performs. */
  function GetSource(k: Kustomization, noCrossNamespaceRefs: bool, allowExternalArtifact: bool): Lookup {
    var source := Resolve(k.key, k.source);
    if noCrossNamespaceRefs && source.key.namespace != k.key.namespace then Denied
    else if k.source.kind == "ExternalArtifact" && !allowExternalArtifact then Denied
    else if k.source.kind in Kinds then Get(source)
    else NotSupported
  }

  /** A source of a supported kind is looked up exactly by the Kustomizations its index lists,
      except across namespaces when that is blocked, and except external artifacts when they are
      not allowed. */
  lemma LookupAgrees(kind: string, source: Key, k: Kustomization, noCrossNamespaceRefs: bool, allowExternalArtifact: bool)
    requires ValidKey(source) && ValidRefs(k)
    ensures GetSource(k, noCrossNamespaceRefs, allowExternalArtifact) == Get(SourceId(kind, source)) <==>
            && KeyString(source) in IndexBy(kind, k)
            && kind in {"OCIRepository", "GitRepository", "Bucket", "ExternalArtifact"}
            && (noCrossNamespaceRefs ==> source.namespace == k.key.namespace)
            && (kind == "ExternalArtifact" ==> allowExternalArtifact)
  {
    IndexAgrees(kind, source, k);
  }

  /** Index and lookup do differ: a Kustomization that refers to another namespace is listed
      under the source and may not read it. */
  lemma IndexedButDenied() returns (k: Kustomization, source: Key)
    ensures ValidKey(source) && ValidRefs(k)
    ensures KeyString(source) in IndexBy("GitRepository", k)
    ensures GetSource(k, true, true) == Denied
  {
    source := Key("infra", "repo");
    k := Kustomization(Key("apps", "web"), SourceRef("GitRepository", "infra", "repo"), false, false, "");
  }

  // ------------------------------------------------------------ requests for a revision

  /** SourceRevisionChangePredicate.Update, on the revisions of the two artifacts. */
  function Update(before: Option<string>, after: Option<string>): (r: bool)
    ensures r <==> after.Some? && before != after
  {
    if before.None? && after.Some? then true
    else if before.Some? && after.Some? && before.value != after.value then true
    else false
  }

  ghost function KeysOf(ks: seq<Kustomization>): multiset<Key> {
    if ks == [] then multiset{} else KeysOf(ks[..|ks| - 1]) + multiset{ks[|ks| - 1].key}
  }

  /** dependency.Sort: an error, or the same keys in some order. */
  ghost predicate Sorts(sort: seq<Kustomization> -> Option<seq<Key>>) {
    forall ks :: sort(ks).Some? ==> multiset(sort(ks).value) == KeysOf(ks)
  }

  ghost predicate Skipped(k: Kustomization, revision: string) {
    (k.ready || k.reconciling) && k.lastAttempted == revision
  }

  method SortAndEnqueue(dd: seq<Kustomization>, sort: seq<Kustomization> -> Option<seq<Key>>)
    returns (reqs: Option<seq<Key>>)
    requires Sorts(sort)
    ensures reqs == sort(dd)
    ensures reqs.Some? ==> multiset(reqs.value) == KeysOf(dd)
  {
    var sorted := sort(dd);
    if sorted.None? {
      return None;
    }
    var requests := new Key[|sorted.value|](_ => Key("", ""));
    for i := 0 to |sorted.value|
      invariant requests[..i] == sorted.value[..i]
    {
      requests[i] := sorted.value[i];
    }
    assert requests[..] == requests[..|sorted.value|] == sorted.value[..|sorted.value|] == sorted.value;
    return Some(requests[..]);
  }

  /** The Kustomizations a revision is news to. */
  ghost function Unaware(ks: seq<Kustomization>, revision: string): seq<Kustomization> {
    if ks == [] then []
    else
      var n := |ks| - 1;
      Unaware(ks[..n], revision) + if Skipped(ks[n], revision) then [] else [ks[n]]
  }

  /** list is what the API server returns for the index; it may fail. */
  method RequestsForRevisionChangeOf(artifact: Option<string>, list: Option<seq<Kustomization>>,
                                     sort: seq<Kustomization> -> Option<seq<Key>>)
    returns (reqs: seq<Key>)
    requires Sorts(sort)
    ensures artifact.None? || list.None? || sort(Unaware(list.value, artifact.value)).None? ==> reqs == []
    ensures artifact.Some? && list.Some? && sort(Unaware(list.value, artifact.value)).Some? ==>
              && reqs == sort(Unaware(list.value, artifact.value)).value
              && multiset(reqs) == KeysOf(Unaware(list.value, artifact.value))
  {
    if artifact.None? || list.None? {
      return [];
    }
    var dd: seq<Kustomization> := [];
    for i := 0 to |list.value|
      invariant dd == Unaware(list.value[..i], artifact.value)
    {
      var d := list.value[i];
      assert list.value[..i + 1][..i] == list.value[..i];
      if (d.ready || d.reconciling) && d.lastAttempted == artifact.value {
        continue;
      }
      dd := dd + [d];
    }
    assert list.value[..|list.value|] == list.value;
    var requests := SortAndEnqueue(dd, sort);
    return if requests.None? then [] else requests.value;
  }

  lemma {:induction false} UnawareMembers(ks: seq<Kustomization>, revision: string)
    ensures forall k :: k in Unaware(ks, revision) <==> k in ks && !Skipped(k, revision)
  {
    if ks != [] {
      var n := |ks| - 1;
      UnawareMembers(ks[..n], revision);
      assert ks == ks[..n] + [ks[n]];
    }
  }

  lemma {:induction false} KeysMembers(ks: seq<Kustomization>, key: Key)
    ensures key in KeysOf(ks) <==> exists k :: k in ks && k.key == key
  {
    if ks != [] {
      var n := |ks| - 1;
      KeysMembers(ks[..n], key);
      assert ks == ks[..n] + [ks[n]];
      if key in KeysOf(ks[..n]) {
        var k :| k in ks[..n] && k.key == key;
        assert k in ks;
      } else if key == ks[n].key {
        assert ks[n] in ks;
      }
    }
  }

  /** What the field index returns of all objects for a source. */
  ghost predicate Lists(all: seq<Kustomization>, kind: string, source: Key, list: seq<Kustomization>) {
    forall k :: k in list <==> k in all && KeyString(source) in IndexBy(kind, k)
  }

  /** No lost revision: when an update brings a new revision and the sort succeeds, the requests
      are exactly the users of the source, by getSource's own resolution, that have not already
      attempted the revision while Ready or Reconciling. */
  lemma NoLostRevision(all: seq<Kustomization>, kind: string, source: Key, before: Option<string>, after: Option<string>,
                       list: seq<Kustomization>, reqs: seq<Key>, key: Key)
    requires ValidKey(source) && forall k :: k in all ==> ValidRefs(k)
    requires Update(before, after) && Lists(all, kind, source, list)
    requires multiset(reqs) == KeysOf(Unaware(list, after.value))
    ensures key in reqs <==>
            exists k :: k in all && k.key == key && Resolve(k.key, k.source) == SourceId(kind, source)
                        && !((k.ready || k.reconciling) && k.lastAttempted == after.value)
  {
    var unaware := Unaware(list, after.value);
    assert key in reqs <==> key in multiset(reqs);
    KeysMembers(unaware, key);
    UnawareMembers(list, after.value);
    forall k | k in all
      ensures KeyString(source) in IndexBy(kind, k) <==> Resolve(k.key, k.source) == SourceId(kind, source)
    {
      IndexAgrees(kind, source, k);
    }
    if key in reqs {
      var k :| k in unaware && k.key == key;
      assert k in all && !Skipped(k, after.value);
    }
  }
}
