/** internal/inventory/inventory.go and pruneSurvivors of the controller: the list
    of tracked objects, how it advances after an apply, and how objects whose
    deletion was not confirmed are put back. */
module Inventory {
  import opened Text

  /** Identity of a Kubernetes object. */
  datatype ObjMetadata = ObjMetadata(namespace: string, name: string, group: string, kind: string)

  /** An unstructured object, reduced to what the inventory uses. */
  datatype Object = Object(meta: ObjMetadata, version: string)

  datatype ResourceRef = ResourceRef(id: string, version: string)

  datatype Action = Created | Configured | Unchanged | Deleted | Skipped | UnknownAction

  datatype ChangeSetEntry = ChangeSetEntry(meta: ObjMetadata, groupVersion: string, action: Action)

  // ---------------------------------------------------------------- id codec

  /** Fields free of the separator: the precondition under which ids are unambiguous. */
  predicate Printable(m: ObjMetadata) {
    '_' !in m.namespace && '_' !in m.name && '_' !in m.group && '_' !in m.kind
  }

  function Print(m: ObjMetadata): string {
    Join([m.namespace, m.name, m.group, m.kind], '_')
  }

  function Parse(id: string): Result<ObjMetadata> {
    var f := Split(id, '_');
    if |f| == 4 then Ok(ObjMetadata(f[0], f[1], f[2], f[3])) else Err
  }

  /** namespace, name, group and kind, in this order, between underscores. */
  lemma IdLayout(m: ObjMetadata)
    ensures Print(m) == m.namespace + "_" + m.name + "_" + m.group + "_" + m.kind
  {
    var f := [m.namespace, m.name, m.group, m.kind];
    assert f[1..] == [m.name, m.group, m.kind] && f[1..][1..] == [m.group, m.kind] && f[1..][1..][1..] == [m.kind];
    assert Join(f[1..][1..], '_') == m.group + "_" + m.kind;
    assert Join(f[1..], '_') == m.name + "_" + (m.group + "_" + m.kind);
  }

  lemma ParseOfPrint(m: ObjMetadata)
    requires Printable(m)
    ensures Parse(Print(m)) == Ok(m)
  {
    var parts := [m.namespace, m.name, m.group, m.kind];
    assert AllFree(parts, '_');
    SplitOfJoin(parts, '_');
  }

  lemma PrintOfParse(id: string)
    requires Parse(id).Ok?
    ensures Print(Parse(id).value) == id && Printable(Parse(id).value)
  {
    JoinOfSplit(id, '_');
    var f := Split(id, '_');
    assert f == [f[0], f[1], f[2], f[3]];
  }

  // ------------------------------------------------------------ abstractions

  ghost function Ids(entries: seq<ResourceRef>): set<string> {
    set e | e in entries :: e.id
  }

  function ObjectIds(objects: seq<Object>): set<string> {
    set o | o in objects :: Print(o.meta)
  }

  function Metas(objects: seq<Object>): set<ObjMetadata> {
    set o | o in objects :: o.meta
  }

  /** Every id parses, and therefore prints back to itself. */
  ghost predicate WellFormed(entries: seq<ResourceRef>) {
    forall e :: e in entries ==> Parse(e.id).Ok?
  }

  predicate AllPrintable(objects: seq<Object>) {
    forall o :: o in objects ==> Printable(o.meta)
  }

  /** The version of the last entry with this id. */
  ghost function LastVersion(entries: seq<ResourceRef>, id: string): string
    requires id in Ids(entries)
  {
    var n := |entries| - 1;
    if entries[n].id == id then entries[n].version else LastVersion(entries[..n], id)
  }

  /** The change set has a Deleted or Skipped entry for the id. */
  ghost predicate Confirms(cs: Option<seq<ChangeSetEntry>>, id: string) {
    cs.Some? && exists e :: e in cs.value && e.action in {Deleted, Skipped} && Print(e.meta) == id
  }

  /** It is the version of any entry after which the id does not occur again. */
  lemma {:induction false} LastVersionIsLast(entries: seq<ResourceRef>, k: nat)
    requires k < |entries| && forall j :: k < j < |entries| ==> entries[j].id != entries[k].id
    ensures entries[k].id in Ids(entries) && LastVersion(entries, entries[k].id) == entries[k].version
  {
    var n := |entries| - 1;
    assert entries[k] in entries;
    if k < n {
      assert entries[..n][k] == entries[k];
      LastVersionIsLast(entries[..n], k);
    }
  }

  /** Ids with a Deleted or Skipped entry: the deletion is confirmed or opted out of. */
  function SettledIds(cs: Option<seq<ChangeSetEntry>>): (ids: set<string>)
    ensures forall id :: id in ids <==> Confirms(cs, id)
  {
    match cs
    case None => {}
    case Some(es) => set e | e in es && (e.action == Deleted || e.action == Skipped) :: Print(e.meta)
  }

  /** What Diff promises: one object per id of old that is not in new, with the last version. */
  ghost predicate IsStale(previous: seq<ResourceRef>, current: seq<ResourceRef>, stale: seq<Object>) {
    && ObjectIds(stale) == Ids(previous) - Ids(current)
    && AllPrintable(stale)
    && (forall i, j :: 0 <= i < j < |stale| ==> Print(stale[i].meta) != Print(stale[j].meta))
    && forall o :: o in stale ==> Print(o.meta) in Ids(previous) && o.version == LastVersion(previous, Print(o.meta))
  }

  // --------------------------------------------------- specification functions

  function EntriesOf(es: seq<ChangeSetEntry>): (r: seq<ResourceRef>)
    ensures |r| == |es|
    ensures forall i :: 0 <= i < |es| ==> r[i] == ResourceRef(Print(es[i].meta), es[i].groupVersion)
  {
    seq(|es|, i requires 0 <= i < |es| => ResourceRef(Print(es[i].meta), es[i].groupVersion))
  }

  ghost function Merged(entries: seq<ResourceRef>, objects: seq<Object>): seq<ResourceRef>
    decreases |objects|
  {
    if objects == [] then entries
    else
      var id := Print(objects[0].meta);
      if id in Ids(entries) then Merged(entries, objects[1..])
      else Merged(entries + [ResourceRef(id, objects[0].version)], objects[1..])
  }

  ghost function Survivors(objects: seq<Object>, settled: set<string>): seq<Object> {
    if objects == [] then []
    else
      var n := |objects| - 1;
      Survivors(objects[..n], settled) +
      if Print(objects[n].meta) in settled then [] else [objects[n]]
  }

  // ------------------------------------------------------------------ methods

  /** The status inventory, updated in place. */
  class ResourceInventory {
    var entries: seq<ResourceRef>

    constructor ()
      ensures entries == []
    {
      entries := [];
    }
  }

  method AddChangeSet(inv: ResourceInventory, cs: Option<seq<ChangeSetEntry>>)
    modifies inv
    ensures inv.entries == old(inv.entries) + (if cs.None? then [] else EntriesOf(cs.value))
  {
    if cs.None? {
      return;
    }
    var es := cs.value;
    ghost var before := inv.entries;
    for i := 0 to |es|
      invariant inv.entries == before + EntriesOf(es)[..i]
    {
      inv.entries := inv.entries + [ResourceRef(Print(es[i].meta), es[i].groupVersion)];
    }
  }

  method Merge(inv: ResourceInventory?, objects: seq<Object>)
    modifies inv
    ensures inv != null ==> inv.entries == Merged(old(inv.entries), objects)
  {
    if inv == null || |objects| == 0 {
      return;
    }
    ghost var before := inv.entries;
    var seen: set<string> := {};
    for i := 0 to |inv.entries|
      invariant inv.entries == before
      invariant seen == Ids(before[..i])
    {
      seen := seen + {inv.entries[i].id};
    }
    assert before[..|before|] == before;
    for i := 0 to |objects|
      invariant seen == Ids(inv.entries)
      invariant Merged(inv.entries, objects[i..]) == Merged(before, objects)
    {
      var id := Print(objects[i].meta);
      assert objects[i..][0] == objects[i] && objects[i..][1..] == objects[i + 1..];
      if id in seen {
        continue;
      }
      inv.entries := inv.entries + [ResourceRef(id, objects[i].version)];
      seen := seen + {id};
    }
  }

  /** The object of each entry, in the order of the inventory. */
  ghost function Listed(entries: seq<ResourceRef>): (objects: seq<Object>)
    requires WellFormed(entries)
    ensures |objects| == |entries|
    ensures forall i :: 0 <= i < |entries| ==>
              objects[i] == Object(Parse(entries[i].id).value, entries[i].version)
  {
    seq(|entries|, i requires 0 <= i < |entries| =>
      assert entries[i] in entries; Object(Parse(entries[i].id).value, entries[i].version))
  }

  /** Fails exactly when some id does not parse; otherwise gives the object of every entry,
      in any order. */
  method List(inv: ResourceInventory) returns (r: Result<seq<Object>>)
    ensures r.Ok? <==> WellFormed(inv.entries)
    ensures r.Ok? ==> multiset(r.value) == multiset(Listed(inv.entries))
    ensures r.Ok? ==> ObjectIds(r.value) == Ids(inv.entries) && AllPrintable(r.value)
  {
    var objects: seq<Object> := [];
    for i := 0 to |inv.entries|
      invariant |objects| == i
      invariant forall j :: 0 <= j < i ==> Parse(inv.entries[j].id).Ok?
      invariant forall j :: 0 <= j < i ==>
                  objects[j] == Object(Parse(inv.entries[j].id).value, inv.entries[j].version)
    {
      var m := Parse(inv.entries[i].id);
      if m.Err? {
        return Err;
      }
      objects := objects + [Object(m.value, inv.entries[i].version)];
    }
    assert objects == Listed(inv.entries);
    var sorted := Sort(objects);
    ListedIds(inv.entries, sorted);
    return Ok(sorted);
  }

  /** The library's sort, which may order the objects in any way. */
  method Sort(objects: seq<Object>) returns (sorted: seq<Object>)
    ensures multiset(sorted) == multiset(objects)
  {
    sorted := [];
    var rest := multiset(objects);
    while |rest| > 0
      invariant multiset(sorted) + rest == multiset(objects)
      decreases |rest|
    {
      var o :| o in rest;
      sorted, rest := sorted + [o], rest - multiset{o};
    }
  }

  lemma ListedIds(entries: seq<ResourceRef>, objects: seq<Object>)
    requires WellFormed(entries) && multiset(objects) == multiset(Listed(entries))
    ensures ObjectIds(objects) == Ids(entries) && AllPrintable(objects)
  {
    var listed := Listed(entries);
    forall o | o in objects
      ensures Print(o.meta) in Ids(entries) && Printable(o.meta)
    {
      assert o in multiset(listed);
      var i :| 0 <= i < |listed| && listed[i] == o;
      assert entries[i] in entries;
      PrintOfParse(entries[i].id);
    }
    forall e | e in entries
      ensures e.id in ObjectIds(objects)
    {
      var i :| 0 <= i < |entries| && entries[i] == e;
      PrintOfParse(e.id);
      assert listed[i] in multiset(objects);
      assert listed[i] in objects;
    }
  }

  method ListMetadata(inv: ResourceInventory) returns (r: Result<seq<ObjMetadata>>)
    ensures r.Ok? <==> WellFormed(inv.entries)
    ensures r.Ok? ==> |r.value| == |inv.entries|
    ensures r.Ok? ==> forall i :: 0 <= i < |inv.entries| ==> Parse(inv.entries[i].id) == Ok(r.value[i])
  {
    var metas: seq<ObjMetadata> := [];
    for i := 0 to |inv.entries|
      invariant |metas| == i
      invariant forall j :: 0 <= j < i ==> Parse(inv.entries[j].id) == Ok(metas[j])
    {
      var m := Parse(inv.entries[i].id);
      if m.Err? {
        return Err;
      }
      metas := metas + [m.value];
    }
    return Ok(metas);
  }

  /** Stale objects of the old inventory.  The library keeps the difference in a map and
      sorts it afterwards; picking any remaining element covers every order. */
  method Diff(inv: ResourceInventory, target: ResourceInventory) returns (r: Result<seq<Object>>)
    ensures r.Ok? <==> WellFormed(inv.entries) && WellFormed(target.entries)
    ensures r.Ok? ==> IsStale(inv.entries, target.entries, r.value)
  {
    var versionMap := VersionMap(inv.entries);
    var aList := ListMetadata(inv);
    if aList.Err? {
      return Err;
    }
    var bList := ListMetadata(target);
    if bList.Err? {
      return Err;
    }
    MetadataIds(inv.entries, aList.value);
    MetadataIds(target.entries, bList.value);
    var list := (set m | m in aList.value) - (set m | m in bList.value);
    DifferenceIds(inv.entries, aList.value, target.entries, bList.value, list);
    var objects := ObjectsOf(list, versionMap);
    return Ok(objects);
  }

  /** Diff, first loop: later entries overwrite earlier ones. */
  method VersionMap(entries: seq<ResourceRef>) returns (m: map<string, string>)
    ensures m.Keys == Ids(entries)
    ensures forall id :: id in m ==> m[id] == LastVersion(entries, id)
  {
    m := map[];
    for i := 0 to |entries|
      invariant m.Keys == Ids(entries[..i])
      invariant forall id :: id in m ==> m[id] == LastVersion(entries[..i], id)
    {
      m := m[entries[i].id := entries[i].version];
      assert entries[..i + 1][..i] == entries[..i];
    }
    assert entries[..|entries|] == entries;
  }

  /** Diff, last loop. */
  method ObjectsOf(list: set<ObjMetadata>, versions: map<string, string>) returns (objects: seq<Object>)
    requires forall m :: m in list ==> Print(m) in versions
    requires forall m, n :: m in list && n in list && m != n ==> Print(m) != Print(n)
    ensures forall o :: o in objects ==> o.meta in list && o.version == versions[Print(o.meta)]
    ensures Metas(objects) == list
    ensures forall i, j :: 0 <= i < j < |objects| ==> Print(objects[i].meta) != Print(objects[j].meta)
  {
    objects := [];
    var remaining := list;
    while remaining != {}
      invariant remaining <= list
      invariant forall o :: o in objects ==> o.meta in list - remaining && o.version == versions[Print(o.meta)]
      invariant Metas(objects) == list - remaining
      invariant forall i, j :: 0 <= i < j < |objects| ==> Print(objects[i].meta) != Print(objects[j].meta)
      decreases remaining
    {
      var m :| m in remaining;
      assert forall i :: 0 <= i < |objects| ==> objects[i] in objects;
      MetasAppend(objects, Object(m, versions[Print(m)]));
      objects := objects + [Object(m, versions[Print(m)])];
      remaining := remaining - {m};
    }
  }

  /** The objects without a Deleted or Skipped entry, in order, for every change set. */
  method PruneSurvivors(objects: seq<Object>, cs: Option<seq<ChangeSetEntry>>) returns (survivors: seq<Object>)
    ensures survivors == Survivors(objects, SettledIds(cs))
    ensures forall o :: o in survivors <==>
              && o in objects
              && !(cs.Some? && exists e :: e in cs.value && e.action in {Deleted, Skipped} && Print(e.meta) == Print(o.meta))
  {
    hide SettledIds, Survivors;
    SurvivorsFacts(objects, SettledIds(cs));
    if |objects| == 0 {
      SurvivorsNone(SettledIds(cs));
      return [];
    }
    var settled := SettledEntries(cs);
    survivors := [];
    SurvivorsNone(settled);
    assert objects[..0] == [];
    for i := 0 to |objects|
      invariant survivors == Survivors(objects[..i], settled)
    {
      var id := Print(objects[i].meta);
      SurvivorsStep(objects, i, settled);
      if id !in settled {
        survivors := survivors + [objects[i]];
      }
    }
    assert objects[..|objects|] == objects;
  }

  /** pruneSurvivors, first loop. */
  method SettledEntries(cs: Option<seq<ChangeSetEntry>>) returns (settled: set<string>)
    ensures settled == SettledIds(cs)
  {
    settled := {};
    if cs.Some? {
      for i := 0 to |cs.value|
        invariant settled == SettledIds(Some(cs.value[..i]))
      {
        var entry := cs.value[i];
        match entry.action {
          case Deleted => settled := settled + {Print(entry.meta)};
          case Skipped => settled := settled + {Print(entry.meta)};
          case _ =>
        }
      }
      assert cs.value[..|cs.value|] == cs.value;
    }
  }

  lemma SurvivorsNone(settled: set<string>)
    ensures Survivors([], settled) == []
  {
  }

  lemma SurvivorsStep(objects: seq<Object>, i: nat, settled: set<string>)
    requires i < |objects|
    ensures Survivors(objects[..i + 1], settled)
            == Survivors(objects[..i], settled) + if Print(objects[i].meta) in settled then [] else [objects[i]]
  {
    assert objects[..i + 1][..i] == objects[..i];
  }

  // -------------------------------------------------------------- helper lemmas

  lemma MetadataIds(entries: seq<ResourceRef>, metas: seq<ObjMetadata>)
    requires |metas| == |entries|
    requires forall i :: 0 <= i < |entries| ==> Parse(entries[i].id) == Ok(metas[i])
    ensures forall i :: 0 <= i < |entries| ==> Print(metas[i]) == entries[i].id && Printable(metas[i])
  {
    forall i | 0 <= i < |entries|
      ensures Print(metas[i]) == entries[i].id && Printable(metas[i])
    {
      PrintOfParse(entries[i].id);
    }
  }

  lemma MetasAppend(objects: seq<Object>, o: Object)
    ensures Metas(objects + [o]) == Metas(objects) + {o.meta}
  {
    forall x | x in Metas(objects) + {o.meta}
      ensures x in Metas(objects + [o])
    {
      if x == o.meta {
        assert (objects + [o])[|objects|] == o;
      }
    }
  }

  lemma PrintInjective(a: ObjMetadata, b: ObjMetadata)
    requires Printable(a) && Printable(b) && Print(a) == Print(b)
    ensures a == b
  {
    ParseOfPrint(a);
    ParseOfPrint(b);
  }

  lemma DifferenceIds(a: seq<ResourceRef>, am: seq<ObjMetadata>, b: seq<ResourceRef>, bm: seq<ObjMetadata>,
                      diff: set<ObjMetadata>)
    requires |am| == |a| && |bm| == |b|
    requires forall i :: 0 <= i < |a| ==> Print(am[i]) == a[i].id && Printable(am[i])
    requires forall i :: 0 <= i < |b| ==> Print(bm[i]) == b[i].id && Printable(bm[i])
    requires diff == (set m | m in am) - (set m | m in bm)
    ensures forall m :: m in diff ==> Printable(m) && Print(m) in Ids(a) - Ids(b)
    ensures forall id :: id in Ids(a) - Ids(b) ==> exists m :: m in diff && Print(m) == id
    ensures forall m, n :: m in diff && n in diff && m != n ==> Print(m) != Print(n)
  {
    forall m | m in diff
      ensures Printable(m) && Print(m) in Ids(a) - Ids(b)
    {
      var i :| 0 <= i < |am| && am[i] == m;
      assert a[i] in a;
      if Print(m) in Ids(b) {
        var j :| 0 <= j < |b| && b[j].id == Print(m);
        PrintInjective(bm[j], m);
      }
    }
    forall id | id in Ids(a) - Ids(b)
      ensures exists m :: m in diff && Print(m) == id
    {
      var i :| 0 <= i < |a| && a[i].id == id;
      assert am[i] in diff;
    }
    forall m, n | m in diff && n in diff && m != n
      ensures Print(m) != Print(n)
    {
      if Print(m) == Print(n) {
        PrintInjective(m, n);
      }
    }
  }

  // ------------------------------------------------------------------ algebra

  lemma ObjectIdsSmall()
    ensures ObjectIds([]) == {} && forall o: Object :: ObjectIds([o]) == {Print(o.meta)}
  {
    forall o: Object
      ensures ObjectIds([o]) == {Print(o.meta)}
    {
      assert o in [o];
    }
  }

  lemma ObjectIdsSplit(a: seq<Object>, b: seq<Object>)
    ensures ObjectIds(a + b) == ObjectIds(a) + ObjectIds(b)
  {
    forall id | id in ObjectIds(a) + ObjectIds(b)
      ensures id in ObjectIds(a + b)
    {
      if id in ObjectIds(a) {
        var o :| o in a && Print(o.meta) == id;
        assert o in a + b;
      } else {
        var o :| o in b && Print(o.meta) == id;
        assert o in a + b;
      }
    }
  }

  lemma IdsAppend(entries: seq<ResourceRef>, e: ResourceRef)
    ensures Ids(entries + [e]) == Ids(entries) + {e.id}
  {
    assert (entries + [e])[|entries|] == e;
    forall id | id in Ids(entries)
      ensures id in Ids(entries + [e])
    {
      var x :| x in entries && x.id == id;
      assert x in entries + [e];
    }
  }

  /** A merge keeps the entries as a prefix and appends one entry for each missing id. */
  lemma {:induction false} MergedFacts(entries: seq<ResourceRef>, objects: seq<Object>)
    ensures entries <= Merged(entries, objects)
    ensures Ids(Merged(entries, objects)) == Ids(entries) + ObjectIds(objects)
    ensures forall k :: |entries| <= k < |Merged(entries, objects)| ==>
              Merged(entries, objects)[k].id !in Ids(entries)
              && exists o :: o in objects && Merged(entries, objects)[k] == ResourceRef(Print(o.meta), o.version)
    ensures forall j, k :: |entries| <= j < k < |Merged(entries, objects)| ==>
              Merged(entries, objects)[j].id != Merged(entries, objects)[k].id
    decreases |objects|
  {
    hide Ids, Print, ObjectIds;
    ObjectIdsSmall();
    if objects != [] {
      var o, rest := objects[0], objects[1..];
      var id := Print(o.meta);
      assert objects == [o] + rest;
      ObjectIdsSplit([o], rest);
      if id in Ids(entries) {
        MergedFacts(entries, rest);
      } else {
        var e := ResourceRef(id, o.version);
        IdsAppend(entries, e);
        MergedFacts(entries + [e], rest);
      }
    }
  }

  lemma {:induction false} MergedIdempotent(entries: seq<ResourceRef>, objects: seq<Object>)
    requires ObjectIds(objects) <= Ids(entries)
    ensures Merged(entries, objects) == entries
    decreases |objects|
  {
    if objects != [] {
      assert objects == [objects[0]] + objects[1..];
      ObjectIdsSplit([objects[0]], objects[1..]);
      assert objects[0] in objects;
      MergedIdempotent(entries, objects[1..]);
    }
  }

  /** The survivors are exactly the objects without a settled id, in order. */
  lemma {:induction false} SurvivorsFacts(objects: seq<Object>, settled: set<string>)
    ensures ObjectIds(Survivors(objects, settled)) == ObjectIds(objects) - settled
    ensures forall o :: o in Survivors(objects, settled) <==> o in objects && Print(o.meta) !in settled
  {
    if objects != [] {
      var n := |objects| - 1;
      SurvivorsFacts(objects[..n], settled);
      assert objects == objects[..n] + [objects[n]];
      ObjectIdsSplit(objects[..n], [objects[n]]);
      var last := if Print(objects[n].meta) in settled then [] else [objects[n]];
      ObjectIdsSplit(Survivors(objects[..n], settled), last);
    }
  }

  /** The inventory algebra of a failed prune: for every old and new inventory, duplicates
      included, and every set of settled ids, re-tracking the survivors yields the new ids and the
      unsettled old ones, keeps the new entries as they are, gives every re-tracked entry the
      version it had last, repeats no id, and does nothing the second time. */
  lemma RetrackSurvivors(previous: seq<ResourceRef>, current: seq<ResourceRef>, stale: seq<Object>,
                         settled: set<string>)
    requires IsStale(previous, current, stale)
    ensures var survivors := Survivors(stale, settled);
            var merged := Merged(current, survivors);
            && Ids(merged) == Ids(current) + (Ids(previous) - settled)
            && current <= merged
            && (forall k :: |current| <= k < |merged| ==>
                  merged[k].id in Ids(previous) && merged[k].version == LastVersion(previous, merged[k].id))
            && (forall j, k :: |current| <= j < k < |merged| ==> merged[j].id != merged[k].id)
            && Merged(merged, survivors) == merged
  {
    var survivors := Survivors(stale, settled);
    SurvivorsFacts(stale, settled);
    MergedFacts(current, survivors);
    MergedIdempotent(Merged(current, survivors), survivors);
  }

  /** Ids produced by a change set and by a merge of parsed objects are well formed. */
  lemma MergedWellFormed(entries: seq<ResourceRef>, objects: seq<Object>)
    requires WellFormed(entries) && AllPrintable(objects)
    ensures WellFormed(Merged(entries, objects))
  {
    var merged := Merged(entries, objects);
    MergedFacts(entries, objects);
    forall e | e in merged
      ensures Parse(e.id).Ok?
    {
      var k :| 0 <= k < |merged| && merged[k] == e;
      if k < |entries| {
        assert entries[k] == e;
      } else {
        var o :| o in objects && e == ResourceRef(Print(o.meta), o.version);
        ParseOfPrint(o.meta);
      }
    }
  }

  lemma EntriesWellFormed(es: seq<ChangeSetEntry>)
    requires forall e :: e in es ==> Printable(e.meta)
    ensures WellFormed(EntriesOf(es))
  {
    forall r | r in EntriesOf(es)
      ensures Parse(r.id).Ok?
    {
      var i :| 0 <= i < |es| && EntriesOf(es)[i] == r;
      ParseOfPrint(es[i].meta);
    }
  }
}
