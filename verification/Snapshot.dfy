/** api/v1beta1/snapshot_types.go: the kinds of applied objects, grouped by namespace. */
module Snapshots {
  import opened Text

  datatype Gvk = Gvk(group: string, version: string, kind: string)

  datatype Item = Item(namespace: string, gvk: Gvk)

  datatype Entry = Entry(namespace: string, kinds: map<string, string>)

  /** Groups and versions contain neither commas nor slashes. */
  ghost predicate Clean(g: Gvk) {
    ',' !in g.group && '/' !in g.group && ',' !in g.version && '/' !in g.version
  }

  /** schema.GroupVersionKind.String. */
  function GvkString(g: Gvk): string {
    g.group + "/" + g.version + "," + " Kind=" + g.kind
  }

  /** schema.ParseGroupVersion. */
  function ParseGroupVersion(gv: string): Result<(string, string)> {
    if gv == "" || gv == "/" then Ok(("", ""))
    else
      var parts := Split(gv, '/');
      if |parts| == 1 then Ok(("", gv))
      else if |parts| == 2 then Ok((parts[0], parts[1]))
      else Err
  }

  /** What the listings make of one entry of the kinds map. */
  function ParseKind(gvk: string, kind: string): Option<Gvk> {
    if ',' in gvk then
      var gv := ParseGroupVersion(Split(gvk, ',')[0]);
      if gv.Ok? then Some(Gvk(gv.value.0, gv.value.1, kind)) else None
    else None
  }

  lemma ParseOfGvkString(g: Gvk)
    requires Clean(g)
    ensures ParseKind(GvkString(g), g.kind) == Some(g)
  {
    var gv := g.group + "/" + g.version;
    assert ',' !in gv;
    assert GvkString(g) == gv + [','] + (" Kind=" + g.kind);
    assert GvkString(g)[|gv|] == ',';
    SplitFirst(gv, " Kind=" + g.kind, ',');
    assert gv == g.group + ['/'] + g.version;
    SplitFirst(g.group, g.version, '/');
    SplitFree(g.version, '/');
    assert gv[|g.group|] == '/';
  }

  lemma GvkStringInjective(a: Gvk, b: Gvk)
    requires Clean(a) && Clean(b) && GvkString(a) == GvkString(b)
    ensures a == b
  {
    ParseOfGvkString(a);
    ParseOfGvkString(b);
    var n := |a.group + "/" + a.version + "," + " Kind="|;
    assert GvkString(a)[n..] == a.kind;
    assert GvkString(b)[n..] == b.kind;
  }

  // ------------------------------------------------------------ the grouping

  /** The group-version-kinds added for a namespace. */
  ghost function Added(items: seq<Item>, namespace: string): set<Gvk> {
    set i | i in items && i.namespace == namespace :: i.gvk
  }

  /** kinds maps the text of each of these to its kind, and nothing else. */
  ghost predicate Maps(kinds: map<string, string>, gvks: set<Gvk>) {
    && (forall g :: g in gvks ==> GvkString(g) in kinds && kinds[GvkString(g)] == g.kind)
    && (forall s :: s in kinds ==> exists g :: g in gvks && GvkString(g) == s)
  }

  ghost predicate Distinct(entries: seq<Entry>) {
    forall i, j :: 0 <= i < j < |entries| ==> entries[i].namespace != entries[j].namespace
  }

  ghost function EntryNamespaces(entries: seq<Entry>): set<string> {
    set e | e in entries :: e.namespace
  }

  ghost function ItemNamespaces(items: seq<Item>): set<string> {
    set i | i in items :: i.namespace
  }

  ghost predicate AllClean(items: seq<Item>) {
    forall i :: i in items ==> Clean(i.gvk)
  }

  /** One entry for each namespace that occurs, holding exactly what was added there. */
  ghost predicate Groups(entries: seq<Entry>, items: seq<Item>) {
    && Distinct(entries)
    && EntryNamespaces(entries) == ItemNamespaces(items)
    && forall n :: 0 <= n < |entries| ==> Maps(entries[n].kinds, Added(items, entries[n].namespace))
  }

  class Snapshot {
    var entries: seq<Entry>

    /** NewSnapshot, on the decoded items. */
    constructor (items: seq<Item>)
      requires AllClean(items)
      ensures Groups(entries, items)
    {
      entries := [];
      new;
      for n := 0 to |items|
        invariant Groups(entries, items[..n])
      {
        assert items[..n + 1] == items[..n] + [items[n]];
        AddEntry(items[n], items[..n]);
      }
      assert items[..|items|] == items;
    }

    method AddEntry(item: Item, ghost items: seq<Item>)
      requires Groups(entries, items) && Clean(item.gvk) && AllClean(items)
      modifies this
      ensures Groups(entries, items + [item])
    {
      var found := false;
      for n := 0 to |entries|
        invariant entries == old(entries) && !found
        invariant forall m :: 0 <= m < n ==> entries[m].namespace != item.namespace
      {
        if entries[n].namespace == item.namespace {
          ghost var before := entries;
          var kinds := entries[n].kinds[GvkString(item.gvk) := item.gvk.kind];
          entries := entries[n := entries[n].(kinds := kinds)];
          found := true;
          GroupsUpdate(before, items, item, n);
          break;
        }
      }
      if !found {
        assert item.namespace !in EntryNamespaces(entries);
        GroupsAppend(entries, items, item);
        entries := entries + [Entry(item.namespace, map[GvkString(item.gvk) := item.gvk.kind])];
      }
    }

    method NonNamespacedKinds(ghost items: seq<Item>) returns (kinds: seq<Gvk>)
      requires Groups(entries, items) && AllClean(items)
      ensures Lists(kinds, Added(items, ""))
    {
      hide Maps, Added, Lists;
      kinds := [];
      ghost var found := false;
      for n := 0 to |entries|
        invariant found <==> "" in EntryNamespaces(entries[..n])
        invariant if found then Lists(kinds, Added(items, "")) else kinds == []
      {
        NamespacesAppend(entries[..n], entries[n]);
        assert entries[..n + 1] == entries[..n] + [entries[n]];
        if entries[n].namespace == "" {
          AddedClean(items, "");
          var more := KindsOf(entries[n], Added(items, ""));
          kinds := kinds + more;
          assert kinds == more;
          found := true;
        }
      }
      assert entries[..|entries|] == entries;
      if !found {
        NothingAdded(items, "");
      }
    }

    method NamespacedKinds(ghost items: seq<Item>) returns (nsk: map<string, seq<Gvk>>)
      requires Groups(entries, items) && AllClean(items)
      ensures nsk.Keys == ItemNamespaces(items) - {""}
      ensures forall ns :: ns in nsk ==> Lists(nsk[ns], Added(items, ns))
    {
      hide Maps, Added, Lists, EntryNamespaces, ItemNamespaces;
      nsk := map[];
      NoNamespaces(entries[..0]);
      for n := 0 to |entries|
        invariant nsk.Keys == EntryNamespaces(entries[..n]) - {""}
        invariant forall ns :: ns in nsk ==> Lists(nsk[ns], Added(items, ns))
      {
        NamespacesAppend(entries[..n], entries[n]);
        assert entries[..n + 1] == entries[..n] + [entries[n]];
        if entries[n].namespace != "" {
          AddedClean(items, entries[n].namespace);
          var kinds := KindsOf(entries[n], Added(items, entries[n].namespace));
          nsk := nsk[entries[n].namespace := kinds];
        }
      }
      assert entries[..|entries|] == entries;
    }

    /** The inner loop of both listings; a map is iterated in no particular order. */
    method KindsOf(e: Entry, ghost gvks: set<Gvk>) returns (kinds: seq<Gvk>)
      requires Maps(e.kinds, gvks) && forall g :: g in gvks ==> Clean(g)
      ensures Lists(kinds, gvks)
    {
      kinds := [];
      var rest := e.kinds.Keys;
      while rest != {}
        invariant rest <= e.kinds.Keys
        invariant forall g :: g in kinds <==> g in gvks && GvkString(g) !in rest
        invariant forall i, j :: 0 <= i < j < |kinds| ==> kinds[i] != kinds[j]
        decreases rest
      {
        var s :| s in rest;
        rest := rest - {s};
        ghost var g :| g in gvks && GvkString(g) == s;
        ParseOfGvkString(g);
        var parsed := ParseKind(s, e.kinds[s]);
        assert parsed == Some(g);
        forall h | h in gvks && GvkString(h) == s
          ensures h == g
        {
          GvkStringInjective(h, g);
        }
        if parsed.Some? {
          kinds := kinds + [parsed.value];
        }
      }
    }
  }

  /** kinds lists this set, each element once. */
  ghost predicate Lists(kinds: seq<Gvk>, gvks: set<Gvk>) {
    && (set g | g in kinds) == gvks
    && forall i, j :: 0 <= i < j < |kinds| ==> kinds[i] != kinds[j]
  }

  // ------------------------------------------------------------ lemmas

  lemma AddedAppend(items: seq<Item>, item: Item, namespace: string)
    ensures Added(items + [item], namespace)
            == if item.namespace == namespace then Added(items, namespace) + {item.gvk} else Added(items, namespace)
  {
    assert (items + [item])[|items|] == item;
    forall g | g in Added(items, namespace)
      ensures g in Added(items + [item], namespace)
    {
      var i :| i in items && i.namespace == namespace && i.gvk == g;
      assert i in items + [item];
    }
  }

  lemma MapsAdd(kinds: map<string, string>, gvks: set<Gvk>, g: Gvk)
    requires Maps(kinds, gvks) && Clean(g) && forall h :: h in gvks ==> Clean(h)
    ensures Maps(kinds[GvkString(g) := g.kind], gvks + {g})
  {
    forall h | h in gvks + {g}
      ensures GvkString(h) in kinds[GvkString(g) := g.kind] && kinds[GvkString(g) := g.kind][GvkString(h)] == h.kind
    {
      if GvkString(h) == GvkString(g) {
        GvkStringInjective(h, g);
      }
    }
    var kinds' := kinds[GvkString(g) := g.kind];
    forall s | s in kinds'
      ensures exists h :: h in gvks + {g} && GvkString(h) == s
    {
      if s in kinds {
        var h :| h in gvks && GvkString(h) == s;
        assert h in gvks + {g};
      } else {
        assert g in gvks + {g} && GvkString(g) == s;
      }
    }
  }

  lemma AddedClean(items: seq<Item>, namespace: string)
    requires AllClean(items)
    ensures forall g :: g in Added(items, namespace) ==> Clean(g)
  {
  }

  lemma NothingAdded(items: seq<Item>, namespace: string)
    requires namespace !in ItemNamespaces(items)
    ensures Added(items, namespace) == {} && Lists([], Added(items, namespace))
  {
    assert Added(items, namespace) == {};
  }

  lemma NoNamespaces(entries: seq<Entry>)
    requires entries == []
    ensures EntryNamespaces(entries) == {}
  {
  }

  lemma NamespacesAppend(entries: seq<Entry>, e: Entry)
    ensures EntryNamespaces(entries + [e]) == EntryNamespaces(entries) + {e.namespace}
  {
    assert (entries + [e])[|entries|] == e;
    forall ns | ns in EntryNamespaces(entries)
      ensures ns in EntryNamespaces(entries + [e])
    {
      var x :| x in entries && x.namespace == ns;
      assert x in entries + [e];
    }
  }

  lemma ItemNamespacesAppend(items: seq<Item>, item: Item)
    ensures ItemNamespaces(items + [item]) == ItemNamespaces(items) + {item.namespace}
  {
    assert (items + [item])[|items|] == item;
    forall ns | ns in ItemNamespaces(items)
      ensures ns in ItemNamespaces(items + [item])
    {
      var x :| x in items && x.namespace == ns;
      assert x in items + [item];
    }
  }

  lemma NamespacesUpdate(entries: seq<Entry>, n: nat, e: Entry)
    requires n < |entries| && e.namespace == entries[n].namespace
    ensures EntryNamespaces(entries[n := e]) == EntryNamespaces(entries)
  {
    forall ns | ns in EntryNamespaces(entries)
      ensures ns in EntryNamespaces(entries[n := e])
    {
      var m :| 0 <= m < |entries| && entries[m].namespace == ns;
      assert entries[n := e][m] in entries[n := e] && entries[n := e][m].namespace == ns;
    }
    forall ns | ns in EntryNamespaces(entries[n := e])
      ensures ns in EntryNamespaces(entries)
    {
      var m :| 0 <= m < |entries| && entries[n := e][m].namespace == ns;
      assert entries[m] in entries && entries[m].namespace == ns;
    }
  }

  lemma GroupsUpdate(entries: seq<Entry>, items: seq<Item>, item: Item, n: nat)
    requires Groups(entries, items) && n < |entries| && entries[n].namespace == item.namespace
    requires Clean(item.gvk) && AllClean(items)
    ensures Groups(entries[n := entries[n].(kinds := entries[n].kinds[GvkString(item.gvk) := item.gvk.kind])],
                   items + [item])
  {
    hide Maps, Added, EntryNamespaces, ItemNamespaces, Clean, GvkString;
    var e := entries[n].(kinds := entries[n].kinds[GvkString(item.gvk) := item.gvk.kind]);
    var entries' := entries[n := e];
    NamespacesUpdate(entries, n, e);
    ItemNamespacesAppend(items, item);
    assert item.namespace in EntryNamespaces(entries) by {
      NamespaceOf(entries, n);
    }
    forall m | 0 <= m < |entries|
      ensures Maps(entries'[m].kinds, Added(items + [item], entries'[m].namespace))
    {
      AddedAppend(items, item, entries[m].namespace);
      if m == n {
        AddedClean(items, item.namespace);
        MapsAdd(entries[n].kinds, Added(items, item.namespace), item.gvk);
      }
    }
  }

  lemma NamespaceOf(entries: seq<Entry>, n: nat)
    requires n < |entries|
    ensures entries[n].namespace in EntryNamespaces(entries)
  {
    assert entries[n] in entries;
  }

  lemma MapsOne(g: Gvk)
    requires Clean(g)
    ensures Maps(map[GvkString(g) := g.kind], {} + {g})
  {
    MapsAdd(map[], {}, g);
    assert map[][GvkString(g) := g.kind] == map[GvkString(g) := g.kind];
  }

  lemma GroupsAppend(entries: seq<Entry>, items: seq<Item>, item: Item)
    requires Groups(entries, items) && item.namespace !in EntryNamespaces(entries)
    requires Clean(item.gvk)
    ensures Groups(entries + [Entry(item.namespace, map[GvkString(item.gvk) := item.gvk.kind])], items + [item])
  {
    hide Maps, EntryNamespaces, Clean, GvkString;
    var e := Entry(item.namespace, map[GvkString(item.gvk) := item.gvk.kind]);
    var entries' := entries + [e];
    NamespacesAppend(entries, e);
    ItemNamespacesAppend(items, item);
    forall m | 0 <= m < |entries'|
      ensures Maps(entries'[m].kinds, Added(items + [item], entries'[m].namespace))
    {
      AddedAppend(items, item, entries'[m].namespace);
      if m == |entries| {
        NothingAdded(items, item.namespace);
        MapsOne(item.gvk);
      } else {
        NamespaceOf(entries, m);
      }
    }
    forall m | 0 <= m < |entries|
      ensures entries[m].namespace != item.namespace
    {
      NamespaceOf(entries, m);
    }
  }
}
