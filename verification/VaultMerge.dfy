/** Flattening, updating and rebuilding a nested vault (scripts/vault/update-vault.py). */
module VaultMerge {
  import opened Strings

  /** What a YAML leaf holds; `Other` stands for numbers, booleans and lists. */
  datatype Scalar = Nothing | Text(s: string) | Other(n: int)

  datatype Node = Leaf(value: Scalar) | Dict(entries: Tree)

  type Tree = map<string, Node>

  type Path = seq<string>

  // ---- Keys and paths ----

  function Split(key: string): (parts: Path)
    ensures parts != []
  {
    if key == "" then [""]
    else if key[0] == '.' then [""] + Split(key[1..])
    else var rest := Split(key[1..]); [[key[0]] + rest[0]] + rest[1..]
  }

  function Glue(path: Path): string
    requires path != []
  {
    if |path| == 1 then path[0] else path[0] + "." + Glue(path[1..])
  }

  predicate DotFree(path: Path) {
    forall part :: part in path ==> '.' !in part
  }

  lemma {:induction false} SplitDotFree(key: string)
    ensures DotFree(Split(key))
  {
    if key != "" { SplitDotFree(key[1..]); }
  }

  lemma {:induction false} GlueSplit(key: string)
    ensures Glue(Split(key)) == key
  {
    if key != "" {
      GlueSplit(key[1..]);
      var rest := Split(key[1..]);
      if key[0] == '.' {
        assert ([""] + rest)[1..] == rest;
      } else {
        assert ([[key[0]] + rest[0]] + rest[1..])[1..] == rest[1..];
      }
    }
  }

  lemma {:induction false} SplitAfter(part: string, rest: string)
    requires '.' !in part
    ensures Split(part + "." + rest) == [part] + Split(rest)
    ensures Split(part) == [part]
  {
    var all := part + "." + rest;
    if part == "" {
      assert all[1..] == rest;
    } else {
      SplitAfter(part[1..], rest);
      assert all[1..] == part[1..] + "." + rest;
      assert ([part[1..]] + Split(rest))[1..] == Split(rest);
      assert [part[0]] + part[1..] == part;
    }
  }

  lemma {:induction false} SplitGlue(path: Path)
    requires path != [] && DotFree(path)
    ensures Split(Glue(path)) == path
  {
    if |path| == 1 {
      SplitAfter(path[0], "");
    } else {
      SplitAfter(path[0], Glue(path[1..]));
      SplitGlue(path[1..]);
    }
  }

  // ---- Trees ----

  /** The leaf at a path: what `get_nested_value` finds there, and nothing for a sub-dictionary. */
  function LeafOf(d: Tree, path: Path): Option<Scalar>
    requires path != []
    decreases |path|
  {
    if path[0] !in d then None
    else match d[path[0]]
      case Leaf(v) => if |path| == 1 then Some(v) else None
      case Dict(sub) => if |path| == 1 then None else LeafOf(sub, path[1..])
  }

  /** Walking the path creates missing dictionaries; walking into a leaf is a type error. */
  function Put(d: Tree, path: Path, v: Scalar): Option<Tree>
    requires path != []
    decreases |path|
  {
    if |path| == 1 then Some(d[path[0] := Leaf(v)])
    else
      var child := if path[0] in d then d[path[0]] else Dict(map[]);
      if child.Leaf? then None
      else match Put(child.entries, path[1..], v)
        case None => None
        case Some(sub) => Some(d[path[0] := Dict(sub)])
  }

  /** `unflatten_dict` over the items in their order. */
  function Unflatten(items: seq<(string, Scalar)>): Option<Tree> {
    if items == [] then Some(map[])
    else
      var n := |items| - 1;
      match Unflatten(items[..n])
      case None => None
      case Some(d) => Put(d, Split(items[n].0), items[n].1)
  }

  predicate HoldsSomething(n: Node) {
    n.Leaf? || (n.entries != map[] && forall k :: k in n.entries ==> HoldsSomething(n.entries[k]))
  }

  /** No sub-dictionary, however deep, is empty. */
  predicate NoEmptySub(d: Tree) {
    forall k :: k in d ==> HoldsSomething(d[k])
  }

  /** No leaf lies on the way to `path`. */
  ghost predicate Clear(d: Tree, path: Path) {
    forall n :: 0 < n < |path| ==> LeafOf(d, path[..n]).None?
  }

  lemma {:induction false} PutSucceeds(d: Tree, path: Path, v: Scalar)
    requires path != []
    ensures Put(d, path, v).Some? <==> Clear(d, path)
    decreases |path|
  {
    if |path| > 1 {
      var child := if path[0] in d then d[path[0]] else Dict(map[]);
      if child.Leaf? {
        assert LeafOf(d, path[..1]).Some?;
      } else {
        PutSucceeds(child.entries, path[1..], v);
        forall n | 0 < n < |path| - 1 ensures LeafOf(child.entries, path[1..][..n]) == LeafOf(d, path[..n + 1]) {
          assert path[..n + 1][1..] == path[1..][..n];
        }
        if Clear(child.entries, path[1..]) {
          forall n | 0 < n < |path| ensures LeafOf(d, path[..n]).None? {
            if n > 1 { assert LeafOf(child.entries, path[1..][..n - 1]).None?; }
          }
        } else {
          var n :| 0 < n < |path| - 1 && LeafOf(child.entries, path[1..][..n]).Some?;
          assert LeafOf(d, path[..n + 1]).Some?;
        }
      }
    }
  }

  /** After a write the leaf is there, what was below it is gone, and every other leaf is as before. */
  lemma {:induction false} PutLeaves(d: Tree, path: Path, v: Scalar, q: Path)
    requires path != [] && q != [] && Put(d, path, v).Some?
    ensures LeafOf(Put(d, path, v).value, q) == if q == path then Some(v) else if path <= q then None else LeafOf(d, q)
    decreases |path|
  {
    if |path| > 1 && q[0] == path[0] {
      var child := if path[0] in d then d[path[0]] else Dict(map[]);
      if |q| > 1 {
        PutLeaves(child.entries, path[1..], v, q[1..]);
        assert q == path <==> q[1..] == path[1..];
        assert path <= q <==> path[1..] <= q[1..];
      }
    }
  }

  lemma {:induction false} PutNoEmptySub(d: Tree, path: Path, v: Scalar)
    requires path != [] && Put(d, path, v).Some? && NoEmptySub(d)
    ensures NoEmptySub(Put(d, path, v).value)
    decreases |path|
  {
    if |path| > 1 {
      var child := if path[0] in d then d[path[0]] else Dict(map[]);
      PutNoEmptySub(child.entries, path[1..], v);
      assert path[1] in Put(child.entries, path[1..], v).value;
    }
  }

  /** A node that holds something has a leaf. */
  lemma {:induction false} SomeLeaf(n: Node) returns (path: Path)
    requires n.Dict? && HoldsSomething(n)
    ensures path != [] && LeafOf(n.entries, path).Some?
    decreases n
  {
    var k :| k in n.entries;
    if n.entries[k].Leaf? {
      path := [k];
    } else {
      var rest := SomeLeaf(n.entries[k]);
      path := [k] + rest;
    }
  }

  /** Dictionaries without empty sub-dictionaries are determined by their leaves. */
  lemma {:induction false} LeavesDetermine(a: Node, b: Node)
    requires a.Dict? && b.Dict? && NoEmptySub(a.entries) && NoEmptySub(b.entries)
    requires forall p: Path :: p != [] ==> LeafOf(a.entries, p) == LeafOf(b.entries, p)
    ensures a == b
    decreases a
  {
    forall k | k in a.entries || k in b.entries
      ensures k in a.entries && k in b.entries && a.entries[k] == b.entries[k] {
      assert LeafOf(a.entries, [k]) == LeafOf(b.entries, [k]);
      if k in a.entries && a.entries[k].Dict? {
        var p := SomeLeaf(a.entries[k]);
        SameBelow(a.entries, b.entries, k, p);
      }
      if k in b.entries && b.entries[k].Dict? {
        var p := SomeLeaf(b.entries[k]);
        SameBelow(b.entries, a.entries, k, p);
      }
      if a.entries[k].Dict? {
        forall p: Path | p != [] ensures LeafOf(a.entries[k].entries, p) == LeafOf(b.entries[k].entries, p) {
          assert ([k] + p)[1..] == p;
          assert LeafOf(a.entries, [k] + p) == LeafOf(b.entries, [k] + p);
        }
        LeavesDetermine(a.entries[k], b.entries[k]);
      }
    }
    assert a.entries == b.entries;
  }

  /** A leaf below `k` in one dictionary makes `k` a dictionary in the other. */
  lemma SameBelow(a: Tree, b: Tree, k: string, p: Path)
    requires k in a && a[k].Dict? && p != [] && LeafOf(a[k].entries, p).Some?
    requires LeafOf(a, [k] + p) == LeafOf(b, [k] + p)
    ensures k in b && b[k].Dict?
  {
    assert ([k] + p)[1..] == p;
  }

  // ---- Flat maps ----

  type Flat = map<string, Scalar>

  /** `flatten_dict`'s key for a path below `parent`. */
  function FlatKey(parent: string, path: Path): string
    decreases |path|
  {
    if path == [] then parent
    else FlatKey(SubKey(parent, path[0]), path[1..])
  }

  /** `flat` is a flattening of `d`: its keys are those of the leaves, and each value is one of a leaf with that key. */
  ghost predicate IsFlattening(d: Tree, parent: string, flat: Flat) {
    && (forall p: Path :: p != [] && LeafOf(d, p).Some? ==> FlatKey(parent, p) in flat)
    && (forall key :: key in flat ==>
          exists p: Path :: p != [] && FlatKey(parent, p) == key && LeafOf(d, p) == Some(flat[key]))
  }

  lemma {:induction false} FlatKeyUnder(parent: string, path: Path)
    requires parent != "" && path != []
    ensures FlatKey(parent, path) == parent + "." + Glue(path)
    decreases |path|
  {
    if |path| > 1 {
      FlatKeyUnder(parent + "." + path[0], path[1..]);
      assert parent + "." + path[0] + "." + Glue(path[1..]) == parent + "." + Glue(path);
    } else {
      assert path[1..] == [];
    }
  }

  /** At the top the key is the dotted path, but for leading empty parts. */
  lemma FlatKeyIsGlue(path: Path)
    requires path != [] && (path[0] != "" || |path| == 1)
    ensures FlatKey("", path) == Glue(path)
  {
    if |path| > 1 { FlatKeyUnder(path[0], path[1..]); }
  }

  function SubKey(parent: string, key: string): string {
    if parent != "" then parent + "." + key else key
  }

  /** `flatten_dict`, whatever order the dictionaries list their entries in. */
  method FlattenDict(d: Node, parent: string) returns (flat: Flat)
    requires d.Dict?
    ensures IsFlattening(d.entries, parent, flat)
    decreases d
  {
    flat := map[];
    var rest := d.entries.Keys;
    assert d.entries - rest == map[];
    while rest != {}
      invariant rest <= d.entries.Keys
      invariant IsFlattening(d.entries - rest, parent, flat)
      decreases |rest|
    {
      var key :| key in rest;
      var newKey := SubKey(parent, key);
      match d.entries[key] {
        case Leaf(v) =>
          FlattenLeaf(d.entries, rest, key, parent, flat);
          flat := flat[newKey := v];
        case Dict(_) =>
          var items := FlattenDict(d.entries[key], newKey);
          FlattenSub(d.entries, rest, key, parent, flat, items);
          flat := flat + items;
      }
      rest := rest - {key};
    }
    assert d.entries - {} == d.entries;
  }

  lemma FlattenLeaf(d: Tree, rest: set<string>, key: string, parent: string, flat: Flat)
    requires rest <= d.Keys && key in rest && d[key].Leaf?
    requires IsFlattening(d - rest, parent, flat)
    ensures IsFlattening(d - (rest - {key}), parent, flat[SubKey(parent, key) := d[key].value])
  {
    var more, newKey := d - (rest - {key}), SubKey(parent, key);
    var newFlat := flat[newKey := d[key].value];
    assert LeafOf(more, [key]) == Some(d[key].value);
    assert FlatKey(parent, [key]) == newKey;
    forall p: Path | p != [] && LeafOf(more, p).Some? ensures FlatKey(parent, p) in newFlat {
      if p[0] == key { assert p == [key]; } else { assert LeafOf(d - rest, p).Some?; }
    }
    forall k | k in newFlat
      ensures exists p: Path :: p != [] && FlatKey(parent, p) == k && LeafOf(more, p) == Some(newFlat[k]) {
      if k != newKey {
        var p: Path :| p != [] && FlatKey(parent, p) == k && LeafOf(d - rest, p) == Some(flat[k]);
        assert LeafOf(more, p) == Some(flat[k]);
      }
    }
  }

  lemma FlattenSub(d: Tree, rest: set<string>, key: string, parent: string, flat: Flat, items: Flat)
    requires rest <= d.Keys && key in rest && d[key].Dict?
    requires IsFlattening(d - rest, parent, flat) && IsFlattening(d[key].entries, SubKey(parent, key), items)
    ensures IsFlattening(d - (rest - {key}), parent, flat + items)
  {
    var more, newKey := d - (rest - {key}), SubKey(parent, key);
    forall p: Path | p != [] && LeafOf(more, p).Some? ensures FlatKey(parent, p) in flat + items {
      if p[0] == key {
        assert LeafOf(d[key].entries, p[1..]).Some?;
      } else {
        assert LeafOf(d - rest, p).Some?;
      }
    }
    forall k | k in flat + items
      ensures exists p: Path :: p != [] && FlatKey(parent, p) == k && LeafOf(more, p) == Some((flat + items)[k]) {
      if k in items {
        var p: Path :| p != [] && FlatKey(newKey, p) == k && LeafOf(d[key].entries, p) == Some(items[k]);
        assert ([key] + p)[1..] == p;
        assert FlatKey(parent, [key] + p) == k && LeafOf(more, [key] + p) == Some(items[k]);
      } else {
        var p: Path :| p != [] && FlatKey(parent, p) == k && LeafOf(d - rest, p) == Some(flat[k]);
        assert LeafOf(more, p) == Some(flat[k]);
      }
    }
  }

  // ---- Rebuilding a flat map ----

  /** `items` are the entries of `flat`, in some order. */
  ghost predicate Lists(items: seq<(string, Scalar)>, flat: Flat) {
    && (forall i, j :: 0 <= i < j < |items| ==> items[i].0 != items[j].0)
    && (forall i :: 0 <= i < |items| ==> items[i].0 in flat && flat[items[i].0] == items[i].1)
    && (forall key :: key in flat ==> exists i :: 0 <= i < |items| && items[i].0 == key)
  }

  /** No key's path is a prefix of another's. */
  predicate PrefixFree(items: seq<(string, Scalar)>) {
    forall i, j :: 0 <= i < |items| && 0 <= j < |items| && i != j ==> !(Split(items[i].0) <= Split(items[j].0))
  }

  /** The last item for a path. */
  function ItemAt(items: seq<(string, Scalar)>, path: Path): Option<Scalar> {
    if items == [] then None
    else
      var n := |items| - 1;
      if Split(items[n].0) == path then Some(items[n].1) else ItemAt(items[..n], path)
  }

  lemma {:induction false} ItemAtIs(items: seq<(string, Scalar)>, path: Path)
    ensures ItemAt(items, path).Some? ==>
              exists i :: 0 <= i < |items| && Split(items[i].0) == path && items[i].1 == ItemAt(items, path).value
    ensures ItemAt(items, path).None? ==> forall i :: 0 <= i < |items| ==> Split(items[i].0) != path
  {
    if items != [] {
      var n := |items| - 1;
      ItemAtIs(items[..n], path);
      if Split(items[n].0) != path && ItemAt(items, path).Some? {
        var i :| 0 <= i < n && Split(items[..n][i].0) == path && items[..n][i].1 == ItemAt(items, path).value;
        assert items[i] == items[..n][i];
      }
      forall i | 0 <= i < |items| && ItemAt(items, path).None? ensures Split(items[i].0) != path {
        if i < n { assert items[i] == items[..n][i]; }
      }
    }
  }

  /** A prefix-free list is rebuilt without an error, into a dictionary with exactly its leaves. */
  lemma {:induction false} UnflattenHolds(items: seq<(string, Scalar)>)
    requires PrefixFree(items)
    ensures Unflatten(items).Some? && NoEmptySub(Unflatten(items).value)
    ensures forall p: Path :: p != [] ==> LeafOf(Unflatten(items).value, p) == ItemAt(items, p)
  {
    if items != [] {
      var n := |items| - 1;
      assert forall i :: 0 <= i < n ==> items[..n][i] == items[i];
      UnflattenHolds(items[..n]);
      var d, path, v := Unflatten(items[..n]).value, Split(items[n].0), items[n].1;
      forall k | 0 < k < |path| ensures LeafOf(d, path[..k]).None? {
        ItemAtIs(items[..n], path[..k]);
      }
      PutSucceeds(d, path, v);
      PutNoEmptySub(d, path, v);
      forall p: Path | p != [] ensures LeafOf(Unflatten(items).value, p) == ItemAt(items, p) {
        PutLeaves(d, path, v, p);
        ItemAtIs(items[..n], p);
      }
    }
  }

  /** Every leaf of a rebuilt dictionary comes from an item. */
  lemma {:induction false} LeafComesFrom(items: seq<(string, Scalar)>, p: Path)
    requires p != [] && Unflatten(items).Some? && LeafOf(Unflatten(items).value, p).Some?
    ensures exists i ::
              0 <= i < |items| && Split(items[i].0) == p && Some(items[i].1) == LeafOf(Unflatten(items).value, p)
  {
    var n := |items| - 1;
    var d := Unflatten(items[..n]).value;
    PutLeaves(d, Split(items[n].0), items[n].1, p);
    if p != Split(items[n].0) {
      LeafComesFrom(items[..n], p);
      var i :| 0 <= i < n && Split(items[..n][i].0) == p && Some(items[..n][i].1) == LeafOf(d, p);
      assert items[i] == items[..n][i];
    }
  }

  lemma {:induction false} UnflattenNoEmptySub(items: seq<(string, Scalar)>)
    requires Unflatten(items).Some?
    ensures NoEmptySub(Unflatten(items).value)
  {
    if items != [] {
      var n := |items| - 1;
      UnflattenNoEmptySub(items[..n]);
      PutNoEmptySub(Unflatten(items[..n]).value, Split(items[n].0), items[n].1);
    }
  }

  /** A leaf has no leaf below it. */
  lemma {:induction false} NothingBelowALeaf(d: Tree, p: Path, q: Path)
    requires p != [] && p <= q && LeafOf(d, p).Some? && LeafOf(d, q).Some?
    ensures p == q
    decreases |p|
  {
    if |p| > 1 { NothingBelowALeaf(d[p[0]].entries, p[1..], q[1..]); }
  }

  predicate Dotted(key: string) { key != "" && key[0] == '.' }

  lemma FirstPart(key: string)
    ensures Dotted(key) <==> |Split(key)| > 1 && Split(key)[0] == ""
  {
  }

  lemma {:induction false} FlatKeyNotDotted(path: Path)
    requires DotFree(path)
    ensures !Dotted(FlatKey("", path))
  {
    if path != [] {
      if path[0] == "" {
        FlatKeyNotDotted(path[1..]);
      } else if |path| > 1 {
        FlatKeyUnder(path[0], path[1..]);
        assert path[0][0] in path[0];
      } else {
        assert path[1..] == [] && path[0][0] in path[0];
      }
    }
  }

  /** The key of an item that does not start with a dot. */
  lemma KeyOfItem(key: string)
    ensures FlatKey("", Split(key)) == key <==> !Dotted(key)
  {
    SplitDotFree(key);
    FlatKeyNotDotted(Split(key));
    FirstPart(key);
    if !Dotted(key) {
      FlatKeyIsGlue(Split(key));
      GlueSplit(key);
    }
  }

  /** Flattening undoes unflattening, in whatever order the entries come, exactly for prefix-free, undotted keys. */
  lemma FlattenUnflatten(items: seq<(string, Scalar)>, flat: Flat)
    requires Lists(items, flat)
    ensures (Unflatten(items).Some? && IsFlattening(Unflatten(items).value, "", flat)) <==>
            PrefixFree(items) && forall key :: key in flat ==> !Dotted(key)
  {
    if PrefixFree(items) && forall key :: key in flat ==> !Dotted(key) {
      RebuiltIsFlattened(items, flat);
    } else if Unflatten(items).Some? && IsFlattening(Unflatten(items).value, "", flat) {
      FlattenedIsPrefixFree(items, flat);
    }
  }

  lemma RebuiltIsFlattened(items: seq<(string, Scalar)>, flat: Flat)
    requires Lists(items, flat) && PrefixFree(items) && forall key :: key in flat ==> !Dotted(key)
    ensures Unflatten(items).Some? && IsFlattening(Unflatten(items).value, "", flat)
  {
    UnflattenHolds(items);
    var d := Unflatten(items).value;
    forall p: Path | p != [] && LeafOf(d, p).Some? ensures FlatKey("", p) in flat {
      LeafComesFrom(items, p);
      var i :| 0 <= i < |items| && Split(items[i].0) == p;
      KeyOfItem(items[i].0);
    }
    forall key | key in flat
      ensures exists p: Path :: p != [] && FlatKey("", p) == key && LeafOf(d, p) == Some(flat[key]) {
      var i :| 0 <= i < |items| && items[i].0 == key;
      ItemAtHere(items, i);
      KeyOfItem(key);
      assert LeafOf(d, Split(key)) == Some(flat[key]);
    }
  }

  /** In a prefix-free list an item's path leads to that item. */
  lemma ItemAtHere(items: seq<(string, Scalar)>, i: nat)
    requires PrefixFree(items) && i < |items|
    ensures ItemAt(items, Split(items[i].0)) == Some(items[i].1)
  {
    ItemAtIs(items, Split(items[i].0));
  }

  lemma FlattenedIsPrefixFree(items: seq<(string, Scalar)>, flat: Flat)
    requires Lists(items, flat) && Unflatten(items).Some? && IsFlattening(Unflatten(items).value, "", flat)
    ensures PrefixFree(items) && forall key :: key in flat ==> !Dotted(key)
  {
    var d := Unflatten(items).value;
    forall key | key in flat ensures !Dotted(key) {
      var p: Path :| p != [] && FlatKey("", p) == key && LeafOf(d, p) == Some(flat[key]);
      LeafComesFrom(items, p);
      var i :| 0 <= i < |items| && Split(items[i].0) == p;
      SplitDotFree(items[i].0);
      FlatKeyNotDotted(p);
    }
    forall i | 0 <= i < |items| ensures LeafOf(d, Split(items[i].0)) == Some(items[i].1) {
      var key := items[i].0;
      var p: Path :| p != [] && FlatKey("", p) == key && LeafOf(d, p) == Some(flat[key]);
      LeafComesFrom(items, p);
      var j :| 0 <= j < |items| && Split(items[j].0) == p;
      KeyOfItem(items[j].0);
    }
    forall i, j | 0 <= i < |items| && 0 <= j < |items| && i != j ensures !(Split(items[i].0) <= Split(items[j].0)) {
      if Split(items[i].0) <= Split(items[j].0) {
        NothingBelowALeaf(d, Split(items[i].0), Split(items[j].0));
        GlueSplit(items[i].0);
        GlueSplit(items[j].0);
        assert false;
      }
    }
  }

  // ---- Flattening a dictionary and rebuilding it ----

  predicate DotFreeKeys(n: Node) {
    n.Dict? ==> forall k :: k in n.entries ==> '.' !in k && DotFreeKeys(n.entries[k])
  }

  /** No dots in keys, and no sub-dictionary under an empty top-level key. */
  predicate PlainKeys(d: Tree) {
    DotFreeKeys(Dict(d)) && ("" in d ==> d[""].Leaf?)
  }

  predicate Clean(d: Tree) {
    PlainKeys(d) && NoEmptySub(d)
  }

  lemma {:induction false} DotFreePaths(n: Node, p: Path)
    requires n.Dict? && DotFreeKeys(n) && p != [] && LeafOf(n.entries, p).Some?
    ensures DotFree(p)
    decreases |p|
  {
    if |p| > 1 {
      DotFreePaths(n.entries[p[0]], p[1..]);
      assert p == [p[0]] + p[1..];
    }
  }

  lemma {:induction false} DotFreeIfPathsAre(n: Node)
    requires n.Dict? && (forall k :: k in n.entries ==> HoldsSomething(n.entries[k]))
    requires forall p: Path :: p != [] && LeafOf(n.entries, p).Some? ==> DotFree(p)
    ensures DotFreeKeys(n)
    decreases n
  {
    forall k | k in n.entries ensures '.' !in k && DotFreeKeys(n.entries[k]) {
      if n.entries[k].Leaf? {
        assert LeafOf(n.entries, [k]).Some?;
        assert k in [k];
      } else {
        forall p: Path | p != [] && LeafOf(n.entries[k].entries, p).Some? ensures DotFree(p) && '.' !in k {
          assert ([k] + p)[1..] == p;
          assert LeafOf(n.entries, [k] + p).Some?;
          assert k in [k] + p && forall part :: part in p ==> part in [k] + p;
        }
        var p := SomeLeaf(n.entries[k]);
        DotFreeIfPathsAre(n.entries[k]);
      }
    }
  }

  lemma PlainPath(d: Tree, p: Path)
    requires PlainKeys(d) && p != [] && LeafOf(d, p).Some?
    ensures Split(FlatKey("", p)) == p && !Dotted(FlatKey("", p))
  {
    DotFreePaths(Dict(d), p);
    FlatKeyIsGlue(p);
    SplitGlue(p);
    FlatKeyNotDotted(p);
  }

  /** Unflattening undoes flattening, in whatever order the entries come, exactly for clean dictionaries. */
  lemma UnflattenFlatten(d: Tree, flat: Flat, items: seq<(string, Scalar)>)
    requires IsFlattening(d, "", flat) && Lists(items, flat)
    ensures Unflatten(items) == Some(d) <==> Clean(d)
  {
    if Clean(d) {
      FlatIsRebuilt(d, flat, items);
    } else if Unflatten(items) == Some(d) {
      RebuiltIsClean(d, flat, items);
    }
  }

  lemma FlatIsRebuilt(d: Tree, flat: Flat, items: seq<(string, Scalar)>)
    requires IsFlattening(d, "", flat) && Lists(items, flat) && Clean(d)
    ensures PrefixFree(items) && Unflatten(items) == Some(d)
  {
    FlatIsPrefixFree(d, flat, items);
    UnflattenHolds(items);
    var again := Unflatten(items).value;
    forall p: Path | p != [] ensures LeafOf(d, p) == LeafOf(again, p) {
      SameLeaf(d, flat, items, p);
    }
    LeavesDetermine(Dict(d), Dict(again));
  }

  lemma FlatIsPrefixFree(d: Tree, flat: Flat, items: seq<(string, Scalar)>)
    requires IsFlattening(d, "", flat) && Lists(items, flat) && Clean(d)
    ensures PrefixFree(items) && forall key :: key in flat ==> !Dotted(key)
  {
    forall key | key in flat ensures LeafOf(d, Split(key)).Some? && !Dotted(key) {
      FlatItem(d, flat, key);
    }
    LeavesArePrefixFree(d, items);
  }

  /** An entry of a flattening. */
  lemma FlatItem(d: Tree, flat: Flat, key: string)
    requires IsFlattening(d, "", flat) && PlainKeys(d) && key in flat
    ensures LeafOf(d, Split(key)) == Some(flat[key]) && !Dotted(key)
  {
    var p: Path :| p != [] && FlatKey("", p) == key && LeafOf(d, p) == Some(flat[key]);
    PlainPath(d, p);
  }

  lemma SameLeaf(d: Tree, flat: Flat, items: seq<(string, Scalar)>, p: Path)
    requires IsFlattening(d, "", flat) && Lists(items, flat) && Clean(d) && p != []
    ensures ItemAt(items, p) == LeafOf(d, p)
  {
    ItemAtIs(items, p);
    if LeafOf(d, p).Some? {
      PlainPath(d, p);
      var i :| 0 <= i < |items| && items[i].0 == FlatKey("", p);
      assert Split(items[i].0) == p;
    }
    if ItemAt(items, p).Some? {
      var i :| 0 <= i < |items| && Split(items[i].0) == p && items[i].1 == ItemAt(items, p).value;
      FlatItem(d, flat, items[i].0);
    }
  }

  /** Items that are all leaves of one dictionary are prefix-free. */
  lemma LeavesArePrefixFree(d: Tree, items: seq<(string, Scalar)>)
    requires forall i, j :: 0 <= i < j < |items| ==> items[i].0 != items[j].0
    requires forall i :: 0 <= i < |items| ==> LeafOf(d, Split(items[i].0)).Some?
    ensures PrefixFree(items)
  {
    forall i, j | 0 <= i < |items| && 0 <= j < |items| && i != j ensures !(Split(items[i].0) <= Split(items[j].0)) {
      GlueSplit(items[i].0);
      GlueSplit(items[j].0);
      if Split(items[i].0) <= Split(items[j].0) { NothingBelowALeaf(d, Split(items[i].0), Split(items[j].0)); }
    }
  }

  lemma RebuiltIsClean(d: Tree, flat: Flat, items: seq<(string, Scalar)>)
    requires IsFlattening(d, "", flat) && Lists(items, flat) && Unflatten(items) == Some(d)
    ensures Clean(d)
  {
    UnflattenNoEmptySub(items);
    forall p: Path | p != [] && LeafOf(d, p).Some? ensures DotFree(p) {
      LeafComesFrom(items, p);
      var i :| 0 <= i < |items| && Split(items[i].0) == p;
      SplitDotFree(items[i].0);
    }
    DotFreeIfPathsAre(Dict(d));
    FlattenedIsPrefixFree(items, flat);
    if "" in d && d[""].Dict? {
      var p := SomeLeaf(d[""]);
      assert ([""] + p)[1..] == p;
      LeafComesFrom(items, [""] + p);
      var i :| 0 <= i < |items| && Split(items[i].0) == [""] + p;
      FirstPart(items[i].0);
      assert false;
    }
  }

  /** `get_nested_value`: the value at a dotted key, and nothing if the walk fails. */
  function NodeAt(n: Node, path: Path): Option<Node>
    decreases |path|
  {
    if path == [] then Some(n)
    else if n.Dict? && path[0] in n.entries then NodeAt(n.entries[path[0]], path[1..])
    else None
  }

  method GetNestedValue(d: Tree, key: string) returns (r: Option<Node>)
    ensures r == NodeAt(Dict(d), Split(key))
  {
    var parts, value := Split(key), Dict(d);
    for i := 0 to |parts|
      invariant NodeAt(value, parts[i..]) == NodeAt(Dict(d), parts)
    {
      if !(value.Dict? && parts[i] in value.entries) { return None; }
      assert parts[i..][1..] == parts[i + 1..];
      value := value.entries[parts[i]];
    }
    r := Some(value);
  }

  lemma {:induction false} NodeAtLeaf(n: Node, path: Path, v: Scalar)
    requires n.Dict? && path != []
    ensures NodeAt(n, path) == Some(Leaf(v)) <==> LeafOf(n.entries, path) == Some(v)
    decreases |path|
  {
    if path[0] in n.entries && |path| > 1 && n.entries[path[0]].Dict? { NodeAtLeaf(n.entries[path[0]], path[1..], v); }
  }

  /** Looking a key up in the dictionary and in its flattening is the same. */
  lemma LookupAgrees(d: Tree, flat: Flat, key: string, v: Scalar)
    requires PlainKeys(d) && IsFlattening(d, "", flat)
    ensures NodeAt(Dict(d), Split(key)) == Some(Leaf(v)) <==> key in flat && flat[key] == v
  {
    NodeAtLeaf(Dict(d), Split(key), v);
    LeafIsLookup(d, flat, key);
  }

  lemma LeafIsLookup(d: Tree, flat: Flat, key: string)
    requires PlainKeys(d) && IsFlattening(d, "", flat)
    ensures LeafOf(d, Split(key)) == if key in flat then Some(flat[key]) else None
  {
    if key in flat {
      FlatItem(d, flat, key);
    } else if LeafOf(d, Split(key)).Some? {
      PlainPath(d, Split(key));
      FlatKeyIsGlue(Split(key));
      GlueSplit(key);
    }
  }

  // ---- The update ----

  predicate Has(s: string, pat: string) {
    exists i :: 0 <= i <= |s| && MatchesAt(s, pat, i)
  }

  predicate IsJinja(v: Scalar) {
    v.Text? && Has(v.s, "{{") && Has(v.s, "}}")
  }

  predicate NeedsChange(v: Scalar) {
    v.Text? && "CHANGE_ME" <= v.s
  }

  /** `dict.get`: a missing key and a null look the same. */
  function Lookup(flat: Flat, key: string): Scalar {
    if key in flat then flat[key] else Nothing
  }

  /**
   * What the update writes at a key, if anything; `answers` holds what is entered at the prompts that are not
   * skipped.
   */
  function Change(example: Flat, current: Flat, answers: map<string, string>, key: string): Option<Scalar> {
    var wanted, have := Lookup(example, key), Lookup(current, key);
    if wanted == Nothing then None
    else if IsJinja(wanted) then if have == Nothing then Some(wanted) else None
    else if have == Nothing || NeedsChange(have) then
      if key in answers then Some(Text(answers[key])) else None
    else None
  }

  function Changed(example: Flat, current: Flat, answers: map<string, string>): set<string> {
    set key | key in example && Change(example, current, answers, key).Some?
  }

  /** `current` with the changes at some keys made. */
  function Applied(example: Flat, current: Flat, answers: map<string, string>, touched: set<string>): Flat
    requires touched <= Changed(example, current, answers)
  {
    map key | key in current.Keys + touched ::
      if key in touched then Change(example, current, answers, key).value else current[key]
  }

  function Updated(example: Flat, current: Flat, answers: map<string, string>): Flat {
    Applied(example, current, answers, Changed(example, current, answers))
  }

  /** One turn of the loop. */
  method UpdateKey(example: Flat, key: string, currentFlat: Flat, answers: map<string, string>)
    returns (updated: Flat, changed: bool)
    requires key in example
    ensures var change := Change(example, currentFlat, answers, key);
      changed == change.Some? && updated == if changed then currentFlat[key := change.value] else currentFlat
  {
    updated, changed := currentFlat, false;
    var exampleValue := example[key];
    if exampleValue == Nothing {
      return;
    }
    var currentValue := Lookup(currentFlat, key);
    if IsJinja(exampleValue) {
      if currentValue == Nothing {
        updated := currentFlat[key := exampleValue];
        changed := true;
      }
      return;
    }
    if currentValue == Nothing || NeedsChange(currentValue) {
      if key in answers {
        updated := currentFlat[key := Text(answers[key])];
        changed := true;
      }
    }
  }

  /** Where the loop is when the keys in `rest` are still to come: `n` changes made, all of them elsewhere. */
  ghost predicate Progress(
    example: Flat, current: Flat, answers: map<string, string>, rest: set<string>, flat: Flat, n: nat)
  {
    && rest <= example.Keys
    && n == |Changed(example, current, answers) - rest|
    && flat == Applied(example, current, answers, Changed(example, current, answers) - rest)
  }

  lemma ProgressStarts(example: Flat, current: Flat, answers: map<string, string>)
    ensures Progress(example, current, answers, example.Keys, current, 0)
  {
    assert Changed(example, current, answers) - example.Keys == {};
  }

  lemma ProgressStep(
    example: Flat, current: Flat, answers: map<string, string>, rest: set<string>, flat: Flat, n: nat, key: string)
    requires Progress(example, current, answers, rest, flat, n) && key in rest
    ensures var change := Change(example, flat, answers, key);
      if change.Some? then Progress(example, current, answers, rest - {key}, flat[key := change.value], n + 1)
      else Progress(example, current, answers, rest - {key}, flat, n)
  {
    var all := Changed(example, current, answers);
    ChangeLater(example, current, answers, all - rest, key);
    OneLess(all, rest, key);
  }

  lemma OneLess(all: set<string>, rest: set<string>, key: string)
    requires key in rest
    ensures key in all ==> all - (rest - {key}) == all - rest + {key} && |all - (rest - {key})| == |all - rest| + 1
    ensures key !in all ==> all - (rest - {key}) == all - rest
  {
    if key in all { assert all - (rest - {key}) == all - rest + {key}; }
  }

  /** What is changed at other keys does not matter to this one. */
  lemma ChangeLater(example: Flat, current: Flat, answers: map<string, string>, touched: set<string>, key: string)
    requires touched <= Changed(example, current, answers) && key !in touched && key in example
    ensures var change := Change(example, current, answers, key);
      && (change.Some? <==> key in Changed(example, current, answers))
      && Change(example, Applied(example, current, answers, touched), answers, key) == change
      && (change.Some? ==>
            Applied(example, current, answers, touched + {key}) ==
            Applied(example, current, answers, touched)[key := change.value])
  {
  }

  /** The loop over the example's keys, in any order. */
  method UpdateLoop(example: Flat, current: Flat, answers: map<string, string>)
    returns (currentFlat: Flat, changesMade: nat)
    ensures currentFlat == Updated(example, current, answers)
    ensures changesMade == |Changed(example, current, answers)|
  {
    currentFlat, changesMade := current, 0;
    var rest := example.Keys;
    ProgressStarts(example, current, answers);
    while rest != {}
      invariant Progress(example, current, answers, rest, currentFlat, changesMade)
      decreases |rest|
    {
      var key :| key in rest;
      ProgressStep(example, current, answers, rest, currentFlat, changesMade, key);
      rest := rest - {key};
      var changed;
      currentFlat, changed := UpdateKey(example, key, currentFlat, answers);
      changesMade := changesMade + if changed then 1 else 0;
    }
  }

  // ---- The whole update ----

  /** What the update should leave at a path. */
  function Wanted(example: Tree, vault: Tree, answers: map<string, string>, p: Path): Option<Scalar>
    requires p != []
  {
    var have := LeafOf(vault, p);
    match LeafOf(example, p)
    case None => have
    case Some(wanted) =>
      if wanted == Nothing then have
      else if IsJinja(wanted) then if have in {None, Some(Nothing)} then Some(wanted) else have
      else if have in {None, Some(Nothing)} || NeedsChange(have.value) then
        if Glue(p) in answers then Some(Text(answers[Glue(p)])) else have
      else have
  }

  /** No path at which something is wanted is a proper prefix of another. */
  ghost predicate NoCollision(example: Tree, vault: Tree, answers: map<string, string>) {
    forall p: Path, q: Path ::
      p != [] && p < q ==> Wanted(example, vault, answers, p).None? || Wanted(example, vault, answers, q).None?
  }

  /** The combined paths of the two dictionaries are prefix-free. */
  ghost predicate Compatible(example: Tree, vault: Tree) {
    forall p: Path, q: Path ::
      p != [] && p < q && (LeafOf(example, p).Some? || LeafOf(vault, p).Some?) ==>
        LeafOf(example, q).None? && LeafOf(vault, q).None?
  }

  lemma CompatibleMeansNoCollision(example: Tree, vault: Tree, answers: map<string, string>)
    requires Compatible(example, vault)
    ensures NoCollision(example, vault, answers)
  {
  }

  lemma UpdatedAt(example: Flat, current: Flat, answers: map<string, string>, key: string)
    ensures var updated, change := Updated(example, current, answers), Change(example, current, answers, key);
      && (key in updated <==> key in current || change.Some?)
      && (key in updated ==> updated[key] == if change.Some? then change.value else current[key])
  {
    assert Change(example, current, answers, key).Some? <==> key in Changed(example, current, answers);
  }

  /** The flat update writes at each key what is wanted at its path. */
  lemma UpdatedIsWanted(
    example: Tree, vault: Tree, exampleFlat: Flat, currentFlat: Flat, answers: map<string, string>, key: string)
    requires PlainKeys(example) && PlainKeys(vault)
    requires IsFlattening(example, "", exampleFlat) && IsFlattening(vault, "", currentFlat)
    ensures var updated := Updated(exampleFlat, currentFlat, answers);
      Wanted(example, vault, answers, Split(key)) == if key in updated then Some(updated[key]) else None
  {
    LeafIsLookup(example, exampleFlat, key);
    LeafIsLookup(vault, currentFlat, key);
    GlueSplit(key);
    ChangeIsWanted(example, vault, exampleFlat, currentFlat, answers, key);
    UpdatedAt(exampleFlat, currentFlat, answers, key);
  }

  lemma ChangeIsWanted(
    example: Tree, vault: Tree, exampleFlat: Flat, currentFlat: Flat, answers: map<string, string>, key: string)
    requires LeafOf(example, Split(key)) == if key in exampleFlat then Some(exampleFlat[key]) else None
    requires LeafOf(vault, Split(key)) == if key in currentFlat then Some(currentFlat[key]) else None
    requires Glue(Split(key)) == key
    ensures var change := Change(exampleFlat, currentFlat, answers, key);
      Wanted(example, vault, answers, Split(key)) == if change.Some? then change else LeafOf(vault, Split(key))
  {
  }

  /** A path at which something is wanted is that of a key. */
  lemma WantedPath(example: Tree, vault: Tree, answers: map<string, string>, p: Path)
    requires PlainKeys(example) && PlainKeys(vault) && p != [] && Wanted(example, vault, answers, p).Some?
    ensures Split(Glue(p)) == p
  {
    var d := if LeafOf(vault, p).Some? then vault else example;
    DotFreePaths(Dict(d), p);
    SplitGlue(p);
  }

  /** What the code rebuilds has, at every path, what is wanted there. */
  ghost predicate HasWanted(saved: Option<Tree>, example: Tree, vault: Tree, answers: map<string, string>) {
    saved.Some? && forall p: Path :: p != [] ==> LeafOf(saved.value, p) == Wanted(example, vault, answers, p)
  }

  /**
   * The flat result, rebuilt from its entries in any order, has exactly the wanted leaves just when there is no
   * collision.
   */
  lemma UpdateIsExact(
    example: Tree, vault: Tree, exampleFlat: Flat, currentFlat: Flat, answers: map<string, string>,
    items: seq<(string, Scalar)>)
    requires PlainKeys(example) && PlainKeys(vault)
    requires IsFlattening(example, "", exampleFlat) && IsFlattening(vault, "", currentFlat)
    requires Lists(items, Updated(exampleFlat, currentFlat, answers))
    ensures HasWanted(Unflatten(items), example, vault, answers) <==> NoCollision(example, vault, answers)
  {
    if NoCollision(example, vault, answers) {
      forall i | 0 <= i < |items| ensures Wanted(example, vault, answers, Split(items[i].0)) == Some(items[i].1) {
        UpdatedIsWanted(example, vault, exampleFlat, currentFlat, answers, items[i].0);
      }
      WantedIsPrefixFree(example, vault, answers, items);
      UnflattenHolds(items);
      forall p: Path | p != [] ensures ItemAt(items, p) == Wanted(example, vault, answers, p) {
        ItemAtIs(items, p);
        if Wanted(example, vault, answers, p).Some? {
          WantedPath(example, vault, answers, p);
          UpdatedIsWanted(example, vault, exampleFlat, currentFlat, answers, Glue(p));
          var i :| 0 <= i < |items| && items[i].0 == Glue(p);
          assert Split(items[i].0) == p;
        }
      }
    } else if Unflatten(items).Some? {
      var d := Unflatten(items).value;
      var p: Path, q: Path :| p != [] && p < q && Wanted(example, vault, answers, p).Some?
        && Wanted(example, vault, answers, q).Some?;
      if LeafOf(d, p).Some? && LeafOf(d, q).Some? { NothingBelowALeaf(d, p, q); }
    }
  }

  lemma WantedIsPrefixFree(example: Tree, vault: Tree, answers: map<string, string>, items: seq<(string, Scalar)>)
    requires NoCollision(example, vault, answers)
    requires forall i, j :: 0 <= i < j < |items| ==> items[i].0 != items[j].0
    requires forall i :: 0 <= i < |items| ==> Wanted(example, vault, answers, Split(items[i].0)).Some?
    ensures PrefixFree(items)
  {
    forall i, j | 0 <= i < |items| && 0 <= j < |items| && i != j ensures !(Split(items[i].0) <= Split(items[j].0)) {
      GlueSplit(items[i].0);
      GlueSplit(items[j].0);
      var p, q := Split(items[i].0), Split(items[j].0);
      assert Wanted(example, vault, answers, p).Some? && Wanted(example, vault, answers, q).Some?;
      assert p != q;
      assert p < q || !(p <= q);
    }
  }

  /** One path, before and after: what is neither null nor a placeholder stays, no path goes, missing templates come. */
  predicate Conservative(example: Option<Scalar>, was: Option<Scalar>, now: Option<Scalar>) {
    && (was.Some? && was.value != Nothing && !NeedsChange(was.value) ==> now == was)
    && (was.Some? ==> now.Some?)
    && (example.Some? && IsJinja(example.value) && was in {None, Some(Nothing)} ==> now == example)
    && (example.None? ==> now == was)
  }

  lemma WantedIsConservative(example: Tree, vault: Tree, answers: map<string, string>, p: Path)
    requires p != []
    ensures Conservative(LeafOf(example, p), LeafOf(vault, p), Wanted(example, vault, answers, p))
  {
  }

  /** For prefix-free combined paths the whole update succeeds and is conservative at every path. */
  lemma UpdateIsConservative(
    example: Tree, vault: Tree, exampleFlat: Flat, currentFlat: Flat, answers: map<string, string>,
    items: seq<(string, Scalar)>)
    requires PlainKeys(example) && PlainKeys(vault) && Compatible(example, vault)
    requires IsFlattening(example, "", exampleFlat) && IsFlattening(vault, "", currentFlat)
    requires Lists(items, Updated(exampleFlat, currentFlat, answers))
    ensures Unflatten(items).Some?
    ensures forall p: Path :: p != [] ==>
              Conservative(LeafOf(example, p), LeafOf(vault, p), LeafOf(Unflatten(items).value, p))
  {
    CompatibleMeansNoCollision(example, vault, answers);
    UpdateIsExact(example, vault, exampleFlat, currentFlat, answers, items);
    AllConservative(Unflatten(items).value, example, vault, answers);
  }

  lemma AllConservative(saved: Tree, example: Tree, vault: Tree, answers: map<string, string>)
    requires HasWanted(Some(saved), example, vault, answers)
    ensures forall p: Path :: p != [] ==> Conservative(LeafOf(example, p), LeafOf(vault, p), LeafOf(saved, p))
  {
    forall p: Path | p != [] ensures Conservative(LeafOf(example, p), LeafOf(vault, p), LeafOf(saved, p)) {
      WantedIsConservative(example, vault, answers, p);
    }
  }

  /** `pat` stands somewhere in `s`. */
  ghost predicate Within(s: string, pat: string) {
    exists before: string, after: string :: s == before + pat + after
  }

  /** A Jinja template has an opening and a closing double brace. */
  ghost predicate Template(v: Scalar) {
    v.Text? && Within(v.s, "{{") && Within(v.s, "}}")
  }

  predicate Placeholder(v: Scalar) {
    v.Text? && |v.s| >= 9 && v.s[..9] == "CHANGE_ME"
  }

  lemma HasIsWithin(s: string, pat: string)
    ensures Has(s, pat) <==> Within(s, pat)
  {
    if i :| 0 <= i <= |s| && MatchesAt(s, pat, i) {
      MatchIsSlice(s, pat, i);
      assert s == s[..i] + pat + s[i + |pat|..];
    }
    if before: string, after: string :| s == before + pat + after { assert MatchesAt(s, pat, |before|); }
  }

  lemma TemplatesAre(v: Scalar)
    ensures IsJinja(v) <==> Template(v)
    ensures NeedsChange(v) <==> Placeholder(v)
  {
    if v.Text? {
      HasIsWithin(v.s, "{{");
      HasIsWithin(v.s, "}}");
    }
  }

  /**
   * One path, before and after. A value that is neither null nor a placeholder stays. What is missing, or
   * null, becomes the example's template; and with a plain value in the example it becomes, as a
   * placeholder does, what is entered for it. Without either the path is left as it was.
   */
  ghost predicate LeafAfter(
    example: Option<Scalar>, was: Option<Scalar>, entered: Option<string>, now: Option<Scalar>)
  {
    var missing, asked := was in {None, Some(Nothing)}, example !in {None, Some(Nothing)};
    now ==
      if asked && missing && Template(example.value) then example
      else if asked && !Template(example.value) && (missing || Placeholder(was.value)) && entered.Some?
      then Some(Text(entered.value))
      else was
  }

  /** The whole update, at every path, if the combined paths are prefix-free. */
  lemma EveryLeaf(
    example: Tree, vault: Tree, exampleFlat: Flat, currentFlat: Flat, answers: map<string, string>,
    items: seq<(string, Scalar)>, p: Path)
    requires PlainKeys(example) && PlainKeys(vault) && Compatible(example, vault) && p != []
    requires IsFlattening(example, "", exampleFlat) && IsFlattening(vault, "", currentFlat)
    requires Lists(items, Updated(exampleFlat, currentFlat, answers))
    ensures Unflatten(items).Some?
    ensures LeafAfter(LeafOf(example, p), LeafOf(vault, p),
              if Glue(p) in answers then Some(answers[Glue(p)]) else None, LeafOf(Unflatten(items).value, p))
  {
    CompatibleMeansNoCollision(example, vault, answers);
    UpdateIsExact(example, vault, exampleFlat, currentFlat, answers, items);
    if LeafOf(example, p).Some? { TemplatesAre(LeafOf(example, p).value); }
    if LeafOf(vault, p).Some? { TemplatesAre(LeafOf(vault, p).value); }
  }

  // ---- Which sub-dictionaries a save keeps ----

  predicate IsSub(d: Tree, path: Path) {
    var n := NodeAt(Dict(d), path);
    n.Some? && n.value.Dict?
  }

  lemma {:induction false} AboveALeaf(d: Tree, q: Path, p: Path)
    requires q != [] && q < p && LeafOf(d, p).Some?
    ensures IsSub(d, q)
    decreases |q|
  {
    if |q| > 1 { AboveALeaf(d[q[0]].entries, q[1..], p[1..]); }
  }

  lemma {:induction false} LeafUnder(d: Tree, q: Path) returns (p: Path)
    requires q != [] && NoEmptySub(d) && IsSub(d, q)
    ensures q < p && LeafOf(d, p).Some?
    decreases |q|
  {
    var sub := d[q[0]];
    assert NodeAt(sub, q[1..]).Some?;
    var rest;
    if |q| == 1 {
      assert NodeAt(sub, q[1..]) == Some(sub);
      rest := SomeLeaf(sub);
    } else {
      rest := LeafUnder(sub.entries, q[1..]);
    }
    p := [q[0]] + rest;
    assert p[1..] == rest;
  }

  /** A saved vault has a sub-dictionary exactly where something is wanted below: empty ones go. */
  lemma SubDictionariesKept(
    items: seq<(string, Scalar)>, example: Tree, vault: Tree, answers: map<string, string>, q: Path)
    requires HasWanted(Unflatten(items), example, vault, answers) && q != []
    ensures IsSub(Unflatten(items).value, q) <==> exists p: Path :: q < p && Wanted(example, vault, answers, p).Some?
  {
    var d := Unflatten(items).value;
    UnflattenNoEmptySub(items);
    if IsSub(d, q) {
      var p := LeafUnder(d, q);
      assert Wanted(example, vault, answers, p).Some?;
    }
    if p: Path :| q < p && Wanted(example, vault, answers, p).Some? { AboveALeaf(d, q, p); }
  }

  /** A collision that loses a value: a template at `a` takes the place of what the vault has at `a.b`. */
  lemma CollisionLosesAValue(v: Scalar, template: Scalar)
    requires IsJinja(template)
    ensures var example: Tree, vault: Tree := map["a" := Leaf(template)], map["a" := Dict(map["b" := Leaf(v)])];
      && Wanted(example, vault, map[], ["a", "b"]) == Some(v) && Wanted(example, vault, map[], ["a"]) == Some(template)
      && Updated(map["a" := template], map["a.b" := v], map[]) == map["a.b" := v, "a" := template]
      && Unflatten([("a.b", v), ("a", template)]) == Some(example) && LeafOf(example, ["a", "b"]) == None
  {
    var items := [("a.b", v), ("a", template)];
    SplitAfter("a", "b");
    SplitAfter("b", "");
    assert "a" + "." + "b" == "a.b";
    assert items[..1] == [("a.b", v)] && items[..1][..0] == [];
    assert Unflatten(items[..1]) == Put(map[], ["a", "b"], v);
    assert ["a", "b"][1..] == ["b"];
    var one: Tree := map["b" := Leaf(v)];
    var vault: Tree := map["a" := Dict(one)];
    assert Put(map[], ["b"], v) == Some(one);
    assert Put(map[], ["a", "b"], v) == Some(vault);
    assert Split("a") == ["a"];
    assert Unflatten(items) == Put(vault, ["a"], template);
    assert vault["a" := Leaf(template)] == map["a" := Leaf(template)];
  }

  /** The flat forms the update starts from there. */
  lemma CollisionFlattens(v: Scalar, template: Scalar)
    ensures IsFlattening(map["a" := Leaf(template)], "", map["a" := template])
    ensures IsFlattening(map["a" := Dict(map["b" := Leaf(v)])], "", map["a.b" := v])
  {
    var example: Tree, one: Tree := map["a" := Leaf(template)], map["b" := Leaf(v)];
    var vault: Tree := map["a" := Dict(one)];
    assert LeafOf(example, ["a"]) == Some(template) && FlatKey("", ["a"]) == "a";
    assert LeafOf(one, ["b"]) == Some(v) && ["a", "b"][1..] == ["b"] && "a" + "." + "b" == "a.b";
    assert LeafOf(vault, ["a", "b"]) == Some(v) && FlatKey("", ["a", "b"]) == "a.b";
    forall p: Path | p != [] && LeafOf(example, p).Some? ensures p == ["a"] {}
    forall p: Path | p != [] && LeafOf(vault, p).Some? ensures p == ["a", "b"] {
      assert p == [p[0]] + p[1..];
      assert p[1..] != [] && LeafOf(one, p[1..]).Some?;
    }
  }

  // ---- Rebuilding in place ----

  datatype Slot = Value(v: Scalar) | Sub(child: DictObject)

  /** A Python dictionary: nested dictionaries are objects of their own, updated through a reference to them. */
  class DictObject {
    var entries: map<string, Slot>
    ghost var tree: Tree
    ghost var Repr: set<DictObject>

    /** A tree of objects that share nothing, holding `tree`. */
    ghost predicate Valid()
      reads this, Repr
      decreases Repr
    {
      && this in Repr
      && entries.Keys == tree.Keys
      && (forall k :: k in entries && entries[k].Value? ==> tree[k] == Leaf(entries[k].v))
      && (forall k :: k in entries && entries[k].Sub? ==>
            && entries[k].child in Repr && entries[k].child.Repr <= Repr && this !in entries[k].child.Repr
            && entries[k].child.Valid() && tree[k] == Dict(entries[k].child.tree))
      && (forall k, l :: k in entries && l in entries && k != l && entries[k].Sub? && entries[l].Sub? ==>
            entries[k].child.Repr !! entries[l].child.Repr)
    }

    constructor ()
      ensures Valid() && fresh(Repr) && tree == map[]
    {
      entries, tree, Repr := map[], map[], {this};
    }

    /** `current[parts[-1]] = value` */
    method Write(part: string, v: Scalar)
      requires Valid()
      modifies this
      ensures Valid() && Repr == old(Repr)
      ensures tree == old(tree)[part := Leaf(v)]
    {
      entries := entries[part := Value(v)];
      tree := tree[part := Leaf(v)];
    }

    /** `if part not in current: current[part] = {}` */
    method Enter(part: string)
      requires Valid()
      modifies this
      ensures Valid() && fresh(Repr - old(Repr)) && part in entries
      ensures tree == if part in old(tree) then old(tree) else old(tree)[part := Dict(map[])]
    {
      if part !in entries {
        var made := new DictObject();
        entries := entries[part := Sub(made)];
        tree := tree[part := Dict(map[])];
        Repr := Repr + made.Repr;
      }
    }

    /** A dictionary that shares nothing with the one written to stays as it is. */
    twostate lemma Undisturbed(other: DictObject)
      requires old(Valid()) && old(Repr) !! old(other.Repr)
      requires forall o :: o in old(Repr) ==> unchanged(o)
      requires fresh(other.Repr - old(other.Repr))
      ensures Valid() && Repr == old(Repr) && tree == old(tree) && Repr !! other.Repr
    {
    }

    /** Bringing the ghost state up to date after a write below `part`. */
    ghost method Relink(part: string)
      requires this in Repr && entries.Keys == tree.Keys
      requires forall k :: k in entries && entries[k].Value? ==> tree[k] == Leaf(entries[k].v)
      requires part in entries && entries[part].Sub? && entries[part].child.Valid() && this !in entries[part].child.Repr
      requires forall k :: k in entries && k != part && entries[k].Sub? ==>
        && entries[k].child in Repr && entries[k].child.Repr <= Repr && this !in entries[k].child.Repr
        && entries[k].child.Valid() && tree[k] == Dict(entries[k].child.tree)
      requires forall k, l :: k in entries && l in entries && k != l && entries[k].Sub? && entries[l].Sub? ==>
        entries[k].child.Repr !! entries[l].child.Repr
      modifies `tree, `Repr
      ensures Valid() && Repr == old(Repr) + entries[part].child.Repr
      ensures tree == old(tree)[part := Dict(entries[part].child.tree)]
    {
      tree := tree[part := Dict(entries[part].child.tree)];
      Repr := Repr + entries[part].child.Repr;
    }

    /** Writing below `part`: the other entries do not notice. */
    method InsertBelow(part: string, rest: Path, v: Scalar) returns (ok: bool)
      requires Valid() && rest != [] && part in entries && entries[part].Sub?
      modifies Repr
      ensures Valid() && fresh(Repr - old(Repr))
      ensures ok <==> Put(old(tree)[part].entries, rest, v).Some?
      ensures tree == if ok then old(tree)[part := Dict(Put(old(tree)[part].entries, rest, v).value)] else old(tree)
      decreases |rest|, 1
    {
      var current := entries[part].child;
      label before:
      ok := current.Insert(rest, v);
      forall k | k in entries && entries[k].Sub? && k != part
        ensures entries[k].child.Valid() && entries[k].child.Repr == old(entries[k].child.Repr)
        ensures entries[k].child.Repr !! current.Repr && tree[k] == Dict(entries[k].child.tree) {
        entries[k].child.Undisturbed@before(current);
      }
      Relink(part);
    }

    /** One item of `unflatten_dict`: the cursor goes down the path, making dictionaries, and writes at the end. */
    method Insert(path: Path, v: Scalar) returns (ok: bool)
      requires Valid() && path != []
      modifies Repr
      ensures Valid() && fresh(Repr - old(Repr))
      ensures ok <==> Put(old(tree), path, v).Some?
      ensures tree == if ok then Put(old(tree), path, v).value else old(tree)
      decreases |path|, 0
    {
      if |path| == 1 {
        Write(path[0], v);
        return true;
      }
      PutBelow(tree, path, v);
      Enter(path[0]);
      if entries[path[0]].Value? { return false; }
      ok := InsertBelow(path[0], path[1..], v);
    }
  }

  /** A write below the first part of the path. */
  lemma PutBelow(d: Tree, path: Path, v: Scalar)
    requires |path| > 1
    ensures var entered, part := if path[0] in d then d else d[path[0] := Dict(map[])], path[0];
      if entered[part].Leaf? then Put(d, path, v).None? && entered == d
      else
        var below := Put(entered[part].entries, path[1..], v);
        && (below.None? ==> Put(d, path, v).None? && entered == d)
        && (below.Some? ==> Put(d, path, v) == Some(entered[part := Dict(below.value)]))
  {
    PutSucceeds(map[], path[1..], v);
    var part := path[0];
    if part !in d {
      var below := Put(map[], path[1..], v).value;
      assert d[part := Dict(map[])][part := Dict(below)] == d[part := Dict(below)];
    }
  }

  /** `unflatten_dict`; not `ok` is the type error of walking into a leaf. */
  method UnflattenDict(items: seq<(string, Scalar)>) returns (result: DictObject, ok: bool)
    ensures fresh(result) && result.Valid()
    ensures ok <==> Unflatten(items).Some?
    ensures ok ==> result.tree == Unflatten(items).value
  {
    result := new DictObject();
    ok := true;
    for i := 0 to |items|
      invariant result.Valid() && fresh(result.Repr)
      invariant Unflatten(items[..i]) == Some(result.tree)
    {
      assert items[..i + 1][..i] == items[..i];
      ok := result.Insert(Split(items[i].0), items[i].1);
      if !ok {
        StuckUnflatten(items, i + 1);
        return;
      }
    }
    assert items[..|items|] == items;
  }

  /** Once an item fails the whole list does. */
  lemma {:induction false} StuckUnflatten(items: seq<(string, Scalar)>, i: nat)
    requires i <= |items| && Unflatten(items[..i]).None?
    ensures Unflatten(items).None?
    decreases |items| - i
  {
    if i < |items| {
      assert items[..i + 1][..i] == items[..i];
      StuckUnflatten(items, i + 1);
    } else {
      assert items[..i] == items;
    }
  }

  lemma ListsOneMore(items: seq<(string, Scalar)>, flat: Flat, key: string, v: Scalar)
    requires Lists(items, flat) && key !in flat
    ensures Lists(items + [(key, v)], flat[key := v])
  {
    var more, newFlat := items + [(key, v)], flat[key := v];
    assert more[|items|] == (key, v);
    forall k | k in newFlat ensures exists i :: 0 <= i < |more| && more[i].0 == k {
      if k != key {
        var i :| 0 <= i < |items| && items[i].0 == k;
        assert more[i] == items[i];
      }
    }
  }

  /** The entries of a flat map in some order, as its `items()` gives them. */
  method Items(flat: Flat) returns (items: seq<(string, Scalar)>)
    ensures Lists(items, flat)
  {
    items := [];
    var rest := flat.Keys;
    while rest != {}
      invariant rest <= flat.Keys && Lists(items, flat - rest)
      decreases |rest|
    {
      var key :| key in rest;
      ListsOneMore(items, flat - rest, key, flat[key]);
      assert flat - (rest - {key}) == (flat - rest)[key := flat[key]];
      items := items + [(key, flat[key])];
      rest := rest - {key};
    }
    assert flat - {} == flat;
  }

  /** With no change to make, nothing else is wanted than what the vault has. */
  lemma NothingToChange(
    example: Tree, vault: Tree, exampleFlat: Flat, currentFlat: Flat, answers: map<string, string>, p: Path)
    requires PlainKeys(example) && PlainKeys(vault) && p != []
    requires IsFlattening(example, "", exampleFlat) && IsFlattening(vault, "", currentFlat)
    requires Changed(exampleFlat, currentFlat, answers) == {}
    ensures Wanted(example, vault, answers, p) == LeafOf(vault, p)
  {
    if Wanted(example, vault, answers, p).Some? {
      WantedPath(example, vault, answers, p);
      LeafIsLookup(example, exampleFlat, Glue(p));
      LeafIsLookup(vault, currentFlat, Glue(p));
      ChangeIsWanted(example, vault, exampleFlat, currentFlat, answers, Glue(p));
      assert Glue(p) !in Changed(exampleFlat, currentFlat, answers);
    }
  }

  datatype Outcome = Untouched | Failed | Saved

  /** There is something to change, and `saved` is what rebuilding the updated flat form gives, if it succeeds. */
  ghost predicate Rebuilds(example: Tree, vault: Tree, answers: map<string, string>, saved: Option<Tree>) {
    exists exampleFlat, currentFlat, items ::
      && IsFlattening(example, "", exampleFlat) && IsFlattening(vault, "", currentFlat)
      && Changed(exampleFlat, currentFlat, answers) != {}
      && Lists(items, Updated(exampleFlat, currentFlat, answers)) && Unflatten(items) == saved
  }

  lemma Rebuilt(
    example: Tree, vault: Tree, exampleFlat: Flat, currentFlat: Flat, answers: map<string, string>,
    items: seq<(string, Scalar)>)
    requires IsFlattening(example, "", exampleFlat) && IsFlattening(vault, "", currentFlat)
    requires Changed(exampleFlat, currentFlat, answers) != {}
    requires Lists(items, Updated(exampleFlat, currentFlat, answers))
    ensures Rebuilds(example, vault, answers, Unflatten(items))
    ensures PlainKeys(example) && PlainKeys(vault) && NoCollision(example, vault, answers) ==>
              HasWanted(Unflatten(items), example, vault, answers)
  {
    if PlainKeys(example) && PlainKeys(vault) {
      UpdateIsExact(example, vault, exampleFlat, currentFlat, answers, items);
    }
  }

  /** Nothing else is wanted anywhere than what the vault has. */
  ghost predicate UpToDate(example: Tree, vault: Tree, answers: map<string, string>) {
    forall p: Path :: p != [] ==> Wanted(example, vault, answers, p) == LeafOf(vault, p)
  }

  lemma NothingChanged(
    example: Tree, vault: Tree, exampleFlat: Flat, currentFlat: Flat, answers: map<string, string>)
    requires IsFlattening(example, "", exampleFlat) && IsFlattening(vault, "", currentFlat)
    requires Changed(exampleFlat, currentFlat, answers) == {} && PlainKeys(example) && PlainKeys(vault)
    ensures UpToDate(example, vault, answers)
  {
    forall p: Path | p != [] ensures Wanted(example, vault, answers, p) == LeafOf(vault, p) {
      NothingToChange(example, vault, exampleFlat, currentFlat, answers, p);
    }
  }

  /** `main`, from the decrypted vault to the dictionary that is written out. */
  method UpdateVault(example: Tree, vault: Tree, answers: map<string, string>, confirmed: bool)
    returns (outcome: Outcome, saved: DictObject?)
    ensures !confirmed ==> outcome.Untouched?
    ensures outcome.Saved? ==> saved != null && saved.Valid() && Rebuilds(example, vault, answers, Some(saved.tree))
    ensures outcome.Failed? ==> Rebuilds(example, vault, answers, None)
    ensures PlainKeys(example) && PlainKeys(vault) && NoCollision(example, vault, answers) ==>
              && (outcome.Saved? ==> HasWanted(Some(saved.tree), example, vault, answers))
              && (outcome.Untouched? && confirmed ==> UpToDate(example, vault, answers))
              && !outcome.Failed?
  {
    saved := null;
    var exampleFlat := FlattenDict(Dict(example), "");
    var currentFlat := FlattenDict(Dict(vault), "");
    var updated, changesMade := UpdateLoop(exampleFlat, currentFlat, answers);
    if changesMade == 0 {
      if PlainKeys(example) && PlainKeys(vault) {
        NothingChanged(example, vault, exampleFlat, currentFlat, answers);
      }
      return Untouched, null;
    }
    if !confirmed { return Untouched, null; }
    var items := Items(updated);
    var result, ok := UnflattenDict(items);
    Rebuilt(example, vault, exampleFlat, currentFlat, answers, items);
    outcome, saved := if ok then Saved else Failed, result;
  }
}
