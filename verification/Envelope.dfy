/** decryptEnvelopedValues and decryptEnvelopedValue of internal/decryptor/decryptor.go:
    the walk over a SOPS tree that decrypts enveloped strings in place. */
module Envelope {
  import opened Text

  datatype Scalar = Str(s: string) | Number(n: int) | Boolean(b: bool) | Null

  /** Keys of a branch are strings, except for those of comments. */
  datatype Key = Name(name: string) | Comment

  datatype Tree =
    | Leaf(value: Scalar)
    | Branch(keys: seq<Key>, items: seq<Tree>)
    | List(items: seq<Tree>)

  type KeyPath = seq<string>

  const EnvelopePrefix := "ENC[AES256_GCM,"

  /** The cipher under a fixed key, with additional data. */
  datatype Cipher = Cipher(encrypt: (Scalar, string) -> string, decrypt: (string, string) -> Option<Scalar>)

  /** What SOPS's cipher promises: envelopes open with the additional data they were closed
      with, and with no other; only the empty string is left as it is. */
  ghost predicate Authenticated(c: Cipher) {
    && (forall v, ad :: v != Str("") ==>
          HasPrefix(c.encrypt(v, ad), EnvelopePrefix) && c.decrypt(c.encrypt(v, ad), ad) == Some(v))
    && (forall v, ad, ad' :: v != Str("") && ad != ad' ==> c.decrypt(c.encrypt(v, ad), ad') == None)
    && (forall ad :: c.encrypt(Str(""), ad) == "")
  }

  function AdditionalData(path: KeyPath): string {
    Join(path, ':') + ":"
  }

  // ------------------------------------------------------------ the pure walk

  /** The path each child is walked with; items whose key is not a string are skipped. */
  function ChildPath(t: Tree, i: nat, path: KeyPath): (child: Option<KeyPath>)
    requires !t.Leaf? && i < |t.items|
    ensures t.List? ==> child == Some(path)
    ensures t.Branch? && i < |t.keys| && t.keys[i].Name? ==>
              child.Some? && |child.value| == |path| + 1 && path < child.value && child.value[|path|] == t.keys[i].name
    ensures t.Branch? && i < |t.keys| && t.keys[i].Comment? ==> child == None
  {
    match t
    case List(_) => Some(path)
    case Branch(keys, _) => if i < |keys| && keys[i].Name? then Some(path + [keys[i].name]) else None
  }

  function DecryptScalar(c: Cipher, v: Scalar, path: KeyPath): (r: Result<Scalar>)
    ensures !v.Str? || !HasPrefix(v.s, "ENC[AES256_GCM,") ==> r == Ok(v)
    ensures v.Str? && HasPrefix(v.s, "ENC[AES256_GCM,") ==>
              (r.Ok? ==> c.decrypt(v.s, AdditionalData(path)) == Some(r.value))
              && (r.Err? ==> c.decrypt(v.s, AdditionalData(path)) == None)
  {
    if !v.Str? || !HasPrefix(v.s, EnvelopePrefix) then Ok(v)
    else
      var out := c.decrypt(v.s, AdditionalData(path));
      if out.None? then Err else Ok(out.value)
  }

  function Decrypt(c: Cipher, t: Tree, path: KeyPath): Result<Tree>
    decreases t, 1
  {
    match t
    case Leaf(v) =>
      var r := DecryptScalar(c, v, path);
      if r.Err? then Err else Ok(Leaf(r.value))
    case Branch(keys, items) =>
      var r := DecryptItems(c, t, |items|, path);
      if r.Err? then Err else Ok(Branch(keys, r.value))
    case List(items) =>
      var r := DecryptItems(c, t, |items|, path);
      if r.Err? then Err else Ok(List(r.value))
  }

  /** The first n items of a branch or list. */
  function DecryptItems(c: Cipher, t: Tree, n: nat, path: KeyPath): (r: Result<seq<Tree>>)
    requires !t.Leaf? && n <= |t.items|
    ensures r.Ok? ==> |r.value| == n
    decreases t, 0, n
  {
    if n == 0 then Ok([])
    else
      var before := DecryptItems(c, t, n - 1, path);
      if before.Err? then Err
      else match ChildPath(t, n - 1, path)
        case None => Ok(before.value + [t.items[n - 1]])
        case Some(p) =>
          var item := Decrypt(c, t.items[n - 1], p);
          if item.Err? then Err else Ok(before.value + [item.value])
  }

  // ------------------------------------------------------------ positions

  type Position = seq<nat>

  function At(t: Tree, pos: Position): Option<Tree>
    decreases |pos|
  {
    if pos == [] then Some(t)
    else if t.Leaf? || pos[0] >= |t.items| then None
    else At(t.items[pos[0]], pos[1..])
  }

  /** The keys above a position; list indices leave no trace, and below a comment there is none. */
  function KeysAbove(t: Tree, pos: Position, path: KeyPath): Option<KeyPath>
    requires At(t, pos).Some?
    decreases |pos|
  {
    if pos == [] then Some(path)
    else match ChildPath(t, pos[0], path)
      case None => None
      case Some(p) => KeysAbove(t.items[pos[0]], pos[1..], p)
  }

  /** What the walk should make of the scalar at a position. */
  function Expected(c: Cipher, v: Scalar, keys: Option<KeyPath>): Result<Scalar> {
    if keys.None? then Ok(v) else DecryptScalar(c, v, keys.value)
  }

  lemma {:induction false} ItemsPointwise(c: Cipher, t: Tree, n: nat, path: KeyPath, i: nat)
    requires !t.Leaf? && i < n <= |t.items| && DecryptItems(c, t, n, path).Ok?
    ensures match ChildPath(t, i, path)
            case None => DecryptItems(c, t, n, path).value[i] == t.items[i]
            case Some(p) => Decrypt(c, t.items[i], p) == Ok(DecryptItems(c, t, n, path).value[i])
  {
    if i < n - 1 {
      ItemsPointwise(c, t, n - 1, path, i);
    }
  }

  /** The walk is the pointwise map: at every leaf it does what the leaf's own key path asks
      for, and it keeps everything else, keys, order and shape included. */
  lemma {:induction false} DecryptPointwise(c: Cipher, t: Tree, path: KeyPath, pos: Position)
    requires Decrypt(c, t, path).Ok? && At(t, pos).Some?
    ensures At(Decrypt(c, t, path).value, pos).Some?
    ensures var before, after := At(t, pos).value, At(Decrypt(c, t, path).value, pos).value;
            match before
            case Leaf(v) =>
              after.Leaf? && Expected(c, v, KeysAbove(t, pos, path)) == Ok(after.value)
            case Branch(keys, items) => after.Branch? && after.keys == keys && |after.items| == |items|
            case List(items) => after.List? && |after.items| == |items|
    decreases |pos|
  {
    if pos != [] {
      var i := pos[0];
      ItemsPointwise(c, t, |t.items|, path, i);
      var out := Decrypt(c, t, path).value.items[i];
      match ChildPath(t, i, path) {
        case None => assert out == t.items[i];
        case Some(p) => DecryptPointwise(c, t.items[i], p, pos[1..]);
      }
    }
  }

  /** When it fails, some leaf's envelope does not open under its own key path. */
  lemma {:induction false} DecryptFailsAtLeaf(c: Cipher, t: Tree, path: KeyPath) returns (pos: Position)
    requires Decrypt(c, t, path).Err?
    ensures At(t, pos).Some? && At(t, pos).value.Leaf?
    ensures Expected(c, At(t, pos).value.value, KeysAbove(t, pos, path)).Err?
    decreases t, 1
  {
    if t.Leaf? {
      pos := [];
    } else {
      pos := ItemsFailAtLeaf(c, t, |t.items|, path);
    }
  }

  lemma {:induction false} ItemsFailAtLeaf(c: Cipher, t: Tree, n: nat, path: KeyPath) returns (pos: Position)
    requires !t.Leaf? && n <= |t.items| && DecryptItems(c, t, n, path).Err?
    ensures At(t, pos).Some? && At(t, pos).value.Leaf?
    ensures Expected(c, At(t, pos).value.value, KeysAbove(t, pos, path)).Err?
    decreases t, 0, n
  {
    if DecryptItems(c, t, n - 1, path).Err? {
      pos := ItemsFailAtLeaf(c, t, n - 1, path);
    } else {
      var below := DecryptFailsAtLeaf(c, t.items[n - 1], ChildPath(t, n - 1, path).value);
      pos := [n - 1] + below;
      assert pos[1..] == below;
    }
  }

  // ------------------------------------------------------------ selective encryption

  /** Encrypts the leaves at the selected positions, each under its key path. */
  ghost function Encrypt(c: Cipher, t: Tree, path: KeyPath, pos: Position, selected: Position -> bool): Tree
    decreases t, 1
  {
    match t
    case Leaf(v) => if selected(pos) then Leaf(Str(c.encrypt(v, AdditionalData(path)))) else t
    case Branch(keys, items) => Branch(keys, EncryptItems(c, t, |items|, path, pos, selected))
    case List(items) => List(EncryptItems(c, t, |items|, path, pos, selected))
  }

  ghost function EncryptItems(c: Cipher, t: Tree, n: nat, path: KeyPath, pos: Position, selected: Position -> bool)
    : (r: seq<Tree>)
    requires !t.Leaf? && n <= |t.items|
    ensures |r| == n
    decreases t, 0, n
  {
    if n == 0 then []
    else
      EncryptItems(c, t, n - 1, path, pos, selected) +
      match ChildPath(t, n - 1, path)
      case None => [t.items[n - 1]]
      case Some(p) => [Encrypt(c, t.items[n - 1], p, pos + [n - 1], selected)]
  }

  /** No string that is left alone looks like an envelope. */
  ghost predicate Unambiguous(t: Tree, path: KeyPath, pos: Position, selected: Position -> bool) {
    forall below :: At(t, below).Some? && At(t, below).value.Leaf? && At(t, below).value.value.Str?
                    && KeysAbove(t, below, path).Some? && !selected(pos + below) ==>
                      !HasPrefix(At(t, below).value.value.s, EnvelopePrefix)
  }

  lemma UnambiguousChild(t: Tree, i: nat, path: KeyPath, pos: Position, selected: Position -> bool)
    requires !t.Leaf? && i < |t.items| && ChildPath(t, i, path).Some?
    requires Unambiguous(t, path, pos, selected)
    ensures Unambiguous(t.items[i], ChildPath(t, i, path).value, pos + [i], selected)
  {
    forall below | At(t.items[i], below).Some? && At(t.items[i], below).value.Leaf?
                   && At(t.items[i], below).value.value.Str?
                   && KeysAbove(t.items[i], below, ChildPath(t, i, path).value).Some? && !selected(pos + [i] + below)
      ensures !HasPrefix(At(t.items[i], below).value.value.s, EnvelopePrefix)
    {
      var down := [i] + below;
      assert down[1..] == below;
      assert pos + down == pos + [i] + below;
      assert At(t, down) == At(t.items[i], below);
    }
  }

  /** Envelope round trip: for every tree and every choice of leaves, encrypting them and then
      running the walk gives back the tree. */
  lemma {:induction false} RoundTrip(c: Cipher, t: Tree, path: KeyPath, pos: Position, selected: Position -> bool)
    requires Authenticated(c) && Unambiguous(t, path, pos, selected)
    ensures Decrypt(c, Encrypt(c, t, path, pos, selected), path) == Ok(t)
    decreases t, 1
  {
    match t {
      case Leaf(v) =>
        if !selected(pos) {
          assert pos + [] == pos && At(t, []) == Some(t) && KeysAbove(t, [], path) == Some(path);
        } else if v == Str("") {
          assert !HasPrefix("", EnvelopePrefix);
        }
      case Branch(_, items) =>
        RoundTripItems(c, t, |items|, path, pos, selected);
        assert items[..|items|] == items;
      case List(items) =>
        RoundTripItems(c, t, |items|, path, pos, selected);
        assert items[..|items|] == items;
    }
  }

  lemma {:induction false} RoundTripItems(c: Cipher, t: Tree, n: nat, path: KeyPath, pos: Position,
                                          selected: Position -> bool)
    requires Authenticated(c) && Unambiguous(t, path, pos, selected)
    requires !t.Leaf? && n <= |t.items|
    ensures DecryptItems(c, Encrypt(c, t, path, pos, selected), n, path) == Ok(t.items[..n])
    decreases t, 0, n
  {
    if n > 0 {
      var e := Encrypt(c, t, path, pos, selected);
      RoundTripItems(c, t, n - 1, path, pos, selected);
      EncryptedItem(c, t, |t.items|, n - 1, path, pos, selected);
      assert ChildPath(e, n - 1, path) == ChildPath(t, n - 1, path);
      if ChildPath(t, n - 1, path).Some? {
        UnambiguousChild(t, n - 1, path, pos, selected);
        RoundTrip(c, t.items[n - 1], ChildPath(t, n - 1, path).value, pos + [n - 1], selected);
      }
      assert t.items[..n] == t.items[..n - 1] + [t.items[n - 1]];
    }
  }

  lemma {:induction false} EncryptedItem(c: Cipher, t: Tree, n: nat, i: nat, path: KeyPath, pos: Position,
                                         selected: Position -> bool)
    requires !t.Leaf? && i < n <= |t.items|
    ensures EncryptItems(c, t, n, path, pos, selected)[i]
            == match ChildPath(t, i, path)
               case None => t.items[i]
               case Some(p) => Encrypt(c, t.items[i], p, pos + [i], selected)
  {
    if i < n - 1 {
      EncryptedItem(c, t, n - 1, i, path, pos, selected);
    }
  }

  // ------------------------------------------------------------ path binding

  /** Leaves share additional data exactly when they share the keys above them. */
  lemma PathBinding(a: KeyPath, b: KeyPath)
    requires a != [] && b != [] && AllFree(a, ':') && AllFree(b, ':')
    ensures AdditionalData(a) == AdditionalData(b) <==> a == b
  {
    if AdditionalData(a) == AdditionalData(b) {
      assert Join(a, ':') == AdditionalData(a)[..|AdditionalData(a)| - 1];
      assert Join(b, ':') == AdditionalData(b)[..|AdditionalData(b)| - 1];
      JoinInjective(a, b, ':');
    }
  }

  /** The keys of a path cut at their colons; no keys at all count as one empty piece. */
  function Pieces(path: KeyPath): seq<string> {
    if path == [] then [""]
    else if |path| == 1 then Split(path[0], ':')
    else Split(path[0], ':') + Pieces(path[1..])
  }

  lemma {:induction false} SplitOfPath(path: KeyPath)
    ensures Split(Join(path, ':'), ':') == Pieces(path)
  {
    if |path| > 1 {
      SplitOfPath(path[1..]);
      SplitConcat(path[0], Join(path[1..], ':'), ':');
    }
  }

  /** For all keys: two paths share additional data exactly when cutting their keys at the
      colons gives the same pieces. */
  lemma AdditionalDataDetermines(a: KeyPath, b: KeyPath)
    ensures AdditionalData(a) == AdditionalData(b) <==> Pieces(a) == Pieces(b)
  {
    hide Split, Join, Pieces;
    var x, y := Join(a, ':'), Join(b, ':');
    SplitOfPath(a);
    SplitOfPath(b);
    JoinOfSplit(x, ':');
    JoinOfSplit(y, ':');
    assert x == AdditionalData(a)[..|AdditionalData(a)| - 1];
    assert y == AdditionalData(b)[..|AdditionalData(b)| - 1];
  }

  /** Every key is followed by a colon, and so is no key at all. */
  lemma AdditionalDataLayout(key: string, rest: KeyPath)
    ensures AdditionalData([]) == ":"
    ensures AdditionalData([key]) == key + ":"
    ensures rest != [] ==> AdditionalData([key] + rest) == key + ":" + AdditionalData(rest)
  {
    var path := [key] + rest;
    assert path[1..] == rest;
  }

  /** Keys with colons, or no keys at all, are not told apart. */
  lemma ColonsCollide()
    ensures AdditionalData(["a:b"]) == AdditionalData(["a", "b"])
    ensures AdditionalData([]) == AdditionalData([""])
  {
    assert ["a", "b"][1..] == ["b"];
    assert Join(["a", "b"], ':') == "a:b";
  }

  /** An envelope that was moved below other keys does not open there, unless the keys differ
      only in how their colons are spread; colon-free keys never do. */
  lemma MovedEnvelopeFails(c: Cipher, v: Scalar, from: KeyPath, to: KeyPath)
    requires Authenticated(c) && v != Str("")
    ensures Decrypt(c, Leaf(Str(c.encrypt(v, AdditionalData(from)))), to)
            == if Pieces(from) == Pieces(to) then Ok(Leaf(v)) else Err
    ensures from != [] && to != [] && AllFree(from, ':') && AllFree(to, ':') ==>
              (Pieces(from) == Pieces(to) <==> from == to)
  {
    AdditionalDataDetermines(from, to);
    if from != [] && to != [] && AllFree(from, ':') && AllFree(to, ':') {
      PathBinding(from, to);
    }
  }

  // ------------------------------------------------------------ the walk in place

  /** A tree in memory: branches and lists are arrays, shared by reference. */
  datatype Value =
    | Plain(scalar: Scalar)
    | BranchRef(keys: seq<Key>, cells: array<Value>)
    | ListRef(cells: array<Value>)

  /** The layout of a tree in memory: which array each branch or list lives in. */
  datatype Layout =
    | LeafAt(scalar: Scalar)
    | BranchAt(keys: seq<Key>, cells: array<Value>, below: seq<Layout>)
    | ListAt(cells: array<Value>, below: seq<Layout>)

  ghost function TreeOf(m: Layout): Tree {
    match m
    case LeafAt(s) => Leaf(s)
    case BranchAt(keys, _, below) => Branch(keys, TreesOf(below))
    case ListAt(_, below) => List(TreesOf(below))
  }

  ghost function TreesOf(ms: seq<Layout>): (ts: seq<Tree>)
    ensures |ts| == |ms|
    ensures forall i :: 0 <= i < |ms| ==> ts[i] == TreeOf(ms[i])
  {
    if ms == [] then [] else [TreeOf(ms[0])] + TreesOf(ms[1..])
  }

  ghost function Footprint(m: Layout): set<array<Value>> {
    if m.LeafAt? then {} else {m.cells} + Footprints(m.below)
  }

  ghost function Footprints(ms: seq<Layout>): set<array<Value>> {
    if ms == [] then {} else Footprint(ms[0]) + Footprints(ms[1..])
  }

  /** No array occurs twice. */
  ghost predicate Separate(m: Layout) {
    !m.LeafAt? ==> m.cells !in Footprints(m.below) && AllSeparate(m.below)
  }

  ghost predicate AllSeparate(ms: seq<Layout>) {
    && (forall i, j :: 0 <= i < j < |ms| ==> Footprint(ms[i]) !! Footprint(ms[j]))
    && (forall i :: 0 <= i < |ms| ==> Separate(ms[i]))
  }

  lemma {:induction false} FootprintBelow(ms: seq<Layout>, i: nat)
    requires i < |ms|
    ensures Footprint(ms[i]) <= Footprints(ms)
  {
    if i > 0 {
      assert ms[1..][i - 1] == ms[i];
      FootprintBelow(ms[1..], i - 1);
    }
  }

  lemma {:induction false} FootprintAllocated(m: Layout)
    ensures forall a :: a in Footprint(m) ==> allocated(a)
  {
    if !m.LeafAt? {
      FootprintsAllocated(m.below);
    }
  }

  lemma {:induction false} FootprintsAllocated(ms: seq<Layout>)
    ensures forall a :: a in Footprints(ms) ==> allocated(a)
  {
    if ms != [] {
      FootprintAllocated(ms[0]);
      FootprintsAllocated(ms[1..]);
    }
  }

  /** v is a tree in memory with this layout. */
  ghost predicate LaidOut(v: Value, m: Layout)
    reads Footprint(m)
    decreases m
  {
    if m.LeafAt? then v == Plain(m.scalar)
    else
      && v == (if m.BranchAt? then BranchRef(m.keys, m.cells) else ListRef(m.cells))
      && CellsLaidOut(m.cells, m.below)
  }

  ghost predicate CellsLaidOut(cells: array<Value>, below: seq<Layout>)
    reads cells, Footprints(below)
    decreases below
  {
    && cells.Length == |below|
    && forall i :: 0 <= i < |below| ==> (FootprintBelow(below, i); LaidOut(cells[i], below[i]))
  }

  /** The same array, with other things below. */
  ghost function Refill(m: Layout, below: seq<Layout>): Layout
    requires !m.LeafAt?
  {
    if m.BranchAt? then BranchAt(m.keys, m.cells, below) else ListAt(m.cells, below)
  }

  // ------------------------------------------------------------ key paths in memory

  /** A slice of keys: the first len cells of a buffer that may have room for more and that
      other slices may share. */
  datatype Slice = Slice(buf: array<string>, len: nat) {
    predicate Valid() {
      len <= buf.Length
    }

    function Keys(): KeyPath
      requires Valid()
      reads buf
    {
      buf[..len]
    }
  }

  /** A new buffer with the same keys and any amount of room beyond the given one. */
  method Grow(path: Slice, room: nat) returns (copy: Slice)
    requires path.Valid()
    ensures copy.Valid() && fresh(copy.buf) && copy.len == path.len && copy.len + room <= copy.buf.Length
    ensures copy.Keys() == path.Keys()
  {
    var spare :| 0 <= spare;
    var buf := new string[path.len + room + spare];
    forall i | 0 <= i < path.len {
      buf[i] := path.buf[i];
    }
    return Slice(buf, path.len);
  }

  /** slices.Clone: shares nothing with the original. */
  method Clone(path: Slice) returns (copy: Slice)
    requires path.Valid()
    ensures copy.Valid() && fresh(copy.buf) && copy.Keys() == path.Keys()
  {
    copy := Grow(path, 0);
  }

  /** append: writes in place when there is room, and into a new buffer otherwise. */
  method Append(path: Slice, key: string) returns (longer: Slice)
    requires path.Valid()
    modifies path.buf
    ensures longer.Valid() && longer.Keys() == old(path.Keys()) + [key]
    ensures path.Keys() == old(path.Keys())
    ensures if path.len < path.buf.Length then longer.buf == path.buf
            else fresh(longer.buf) && path.buf[..] == old(path.buf[..])
  {
    if path.len < path.buf.Length {
      path.buf[path.len] := key;
      return Slice(path.buf, path.len + 1);
    }
    var grown := Grow(path, 1);
    grown.buf[path.len] := key;
    return Slice(grown.buf, path.len + 1);
  }

  /** Without a clone in between, appending a second key rewrites the path of the first one. */
  method AppendsCollide(path: Slice, first: string, second: string) returns (a: Slice, b: Slice)
    requires path.Valid() && path.len < path.buf.Length
    modifies path.buf
    ensures a.Valid() && b.Valid() && a.Keys() == b.Keys() == old(path.Keys()) + [second]
  {
    a := Append(path, first);
    b := Append(path, second);
  }

  /** The slice the i-th item is walked with: the list's own, or a clone with the key appended. */
  method ChildSlice(v: Value, i: nat, path: Slice) returns (child: Option<Slice>)
    requires !v.Plain? && path.Valid()
    ensures child.Some? <==> PathOf(v, i, path.Keys()).Some?
    ensures child.Some? ==> child.value.Valid() && Some(child.value.Keys()) == PathOf(v, i, path.Keys())
    ensures child.Some? ==> child.value.buf == path.buf || fresh(child.value.buf)
    ensures child.Some? && v.BranchRef? ==> fresh(child.value.buf)
  {
    if v.ListRef? {
      return Some(path);
    }
    if i >= |v.keys| || v.keys[i].Comment? {
      return None;
    }
    var copy := Clone(path);
    var longer := Append(copy, v.keys[i].name);
    return Some(longer);
  }

  // ------------------------------------------------------------ the walk in memory

  /** decryptEnvelopedValue: decrypts a string, or walks a branch or a list where it is.  The
      tree it leaves in memory is the pure walk of the tree it found. */
  method DecryptValue(c: Cipher, v: Value, path: Slice, ghost m: Layout)
    returns (ok: bool, out: Value, ghost m': Layout)
    requires LaidOut(v, m) && Separate(m) && path.Valid()
    modifies Footprint(m)
    decreases m, 2
    ensures path.buf[..] == old(path.buf[..])
    ensures ok <==> Decrypt(c, TreeOf(m), path.Keys()).Ok?
    ensures ok ==> LaidOut(out, m') && Separate(m') && Footprint(m') == Footprint(m)
    ensures ok ==> Decrypt(c, TreeOf(m), path.Keys()) == Ok(TreeOf(m'))
  {
    if v.Plain? {
      var r := DecryptScalar(c, v.scalar, path.Keys());
      if r.Err? {
        return false, v, m;
      }
      return true, Plain(r.value), LeafAt(r.value);
    }
    out := v;
    ok, m' := DecryptCells(c, v, path, m);
  }

  /** The path of the i-th item, as ChildPath gives it for the tree in memory. */
  ghost function PathOf(v: Value, i: nat, path: KeyPath): Option<KeyPath>
    requires !v.Plain?
  {
    if v.ListRef? then Some(path)
    else if i < |v.keys| && v.keys[i].Name? then Some(path + [v.keys[i].name])
    else None
  }

  /** The loops over a branch or a list, assigning each cell in place.  On failure the cells
      before the failing one are already rewritten. */
  method DecryptCells(c: Cipher, v: Value, path: Slice, ghost m: Layout) returns (ok: bool, ghost m': Layout)
    requires LaidOut(v, m) && Separate(m) && !v.Plain? && path.Valid()
    modifies Footprint(m)
    decreases m, 1
    ensures path.buf[..] == old(path.buf[..])
    ensures ok <==> DecryptItems(c, TreeOf(m), |m.below|, path.Keys()).Ok?
    ensures ok ==> LaidOut(v, m') && Separate(m') && Footprint(m') == Footprint(m)
    ensures ok ==> DecryptItems(c, TreeOf(m), |m.below|, path.Keys()) == Ok(TreeOf(m').items)
    ensures ok ==> !m'.LeafAt? && m' == Refill(m, m'.below)
  {
    hide LaidOut, CellsLaidOut, AllSeparate, Separate, Footprint, Footprints, TreeOf, TreesOf, Decrypt, DecryptItems,
         Refill, ChildPath, PathOf;
    ghost var keys := path.Keys();
    Opened(v, m, keys);
    ghost var t := TreeOf(m);
    ghost var below, done := m.below, [];
    var n := v.cells.Length;
    ItemsZero(c, t, keys);
    for i := 0 to n
      invariant path.Keys() == keys
      invariant |below| == n && Footprints(below) == Footprints(m.below)
      invariant AllSeparate(below) && CellsLaidOut(v.cells, below)
      invariant forall j :: i <= j < n ==> below[j] == m.below[j]
      invariant DecryptItems(c, t, i, keys) == Ok(done)
      invariant |done| == i && forall j :: 0 <= j < i ==> done[j] == TreeOf(below[j])
    {
      FootprintsAllocated(below);
      var childPath := ChildSlice(v, i, path);
      ItemsNext(c, t, i, keys);
      if childPath.None? {
        done := done + [t.items[i]];
        continue;
      }
      ghost var cell;
      FootprintBelow(below, i);
      ok, cell := DecryptCell(c, v.cells, i, childPath.value, m, below);
      if !ok {
        ItemsErrUpward(c, t, i + 1, n, keys);
        return false, m;
      }
      below, done := below[i := cell], done + [TreeOf(cell)];
    }
    RefillFacts(v, m, below, done);
    return true, Refill(m, below);
  }

  /** One assignment branch[i].Value = v, or v[i] = out. */
  method DecryptCell(c: Cipher, cells: array<Value>, i: nat, path: Slice, ghost m: Layout, ghost below: seq<Layout>)
    returns (ok: bool, ghost cell: Layout)
    requires path.Valid()
    requires !m.LeafAt? && i < |below| == |m.below| && below[i] == m.below[i]
    requires CellsLaidOut(cells, below) && AllSeparate(below) && cells !in Footprints(below)
    modifies cells, Footprint(below[i])
    decreases m, 0
    ensures path.buf[..] == old(path.buf[..])
    ensures ok <==> Decrypt(c, TreeOf(below[i]), path.Keys()).Ok?
    ensures ok ==> Decrypt(c, TreeOf(below[i]), path.Keys()) == Ok(TreeOf(cell))
    ensures ok ==> AllSeparate(below[i := cell]) && CellsLaidOut(cells, below[i := cell])
    ensures ok ==> Footprints(below[i := cell]) == Footprints(below)
  {
    hide LaidOut;
    FootprintBelow(below, i);
    FootprintsAllocated(below);
    assert forall j :: 0 <= j < |below| ==> LaidOut(cells[j], below[j]);
    var out;
    ok, out, cell := DecryptValue(c, cells[i], path, below[i]);
    if !ok {
      return;
    }
    forall j | 0 <= j < |below| && j != i
      ensures LaidOut(cells[j], below[j])
    {
      FootprintBelow(below, j);
      assert Footprint(below[j]) !! Footprint(below[i]);
    }
    cells[i] := out;
    FootprintsAgree(below, below[i := cell]);
    forall j | 0 <= j < |below|
      ensures LaidOut(cells[j], below[i := cell][j])
    {
      FootprintBelow(below[i := cell], j);
    }
  }

  /** What a layout says of the value at its top. */
  lemma Opened(v: Value, m: Layout, path: KeyPath)
    requires LaidOut(v, m) && Separate(m) && !v.Plain?
    ensures !m.LeafAt? && v.cells == m.cells
    ensures v == if m.BranchAt? then BranchRef(m.keys, m.cells) else ListRef(m.cells)
    ensures CellsLaidOut(m.cells, m.below) && AllSeparate(m.below) && m.cells !in Footprints(m.below)
    ensures Footprint(m) == {m.cells} + Footprints(m.below)
    ensures !TreeOf(m).Leaf? && m.cells.Length == |m.below| == |TreeOf(m).items|
    ensures forall i :: 0 <= i < |m.below| ==> TreeOf(m).items[i] == TreeOf(m.below[i])
    ensures forall i :: 0 <= i < |m.below| ==> PathOf(v, i, path) == ChildPath(TreeOf(m), i, path)
  {
  }

  lemma ItemsZero(c: Cipher, t: Tree, path: KeyPath)
    requires !t.Leaf?
    ensures DecryptItems(c, t, 0, path) == Ok([])
  {
  }

  lemma ItemsNext(c: Cipher, t: Tree, i: nat, path: KeyPath)
    requires !t.Leaf? && i < |t.items| && DecryptItems(c, t, i, path).Ok?
    ensures DecryptItems(c, t, i + 1, path)
            == match ChildPath(t, i, path)
               case None => Ok(DecryptItems(c, t, i, path).value + [t.items[i]])
               case Some(p) =>
                 if Decrypt(c, t.items[i], p).Err? then Err
                 else Ok(DecryptItems(c, t, i, path).value + [Decrypt(c, t.items[i], p).value])
  {
  }

  lemma RefillFacts(v: Value, m: Layout, below: seq<Layout>, trees: seq<Tree>)
    requires !m.LeafAt? && v == (if m.BranchAt? then BranchRef(m.keys, m.cells) else ListRef(m.cells))
    requires Footprints(below) == Footprints(m.below) && m.cells !in Footprints(m.below)
    requires AllSeparate(below) && CellsLaidOut(m.cells, below)
    requires |trees| == |below| && forall i :: 0 <= i < |below| ==> trees[i] == TreeOf(below[i])
    ensures LaidOut(v, Refill(m, below)) && Separate(Refill(m, below)) && Refill(m, below).below == below
    ensures Footprint(Refill(m, below)) == Footprint(m) && TreeOf(Refill(m, below)).items == trees
  {
  }

  lemma {:induction false} ItemsErrUpward(c: Cipher, t: Tree, k: nat, n: nat, path: KeyPath)
    requires !t.Leaf? && k <= n <= |t.items| && DecryptItems(c, t, k, path).Err?
    ensures DecryptItems(c, t, n, path).Err?
  {
    if k < n {
      ItemsErrUpward(c, t, k, n - 1, path);
    }
  }

  lemma {:induction false} FootprintsAgree(a: seq<Layout>, b: seq<Layout>)
    requires |a| == |b| && forall i :: 0 <= i < |a| ==> Footprint(a[i]) == Footprint(b[i])
    ensures Footprints(a) == Footprints(b)
  {
    if a != [] {
      FootprintsAgree(a[1..], b[1..]);
    }
  }
}
