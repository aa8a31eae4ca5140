/**
 What the cache makes of the files it finds when it starts.  Metadata and data
 files are known by their path below their directory, metadata without its
 extension; `path` gives the place of a key at the present shard depth.
 */
module Startup {
  import opened Common
  import opened Ranges
  import RangeQueries

  type Path = string

  type Placing = string -> Path

  datatype Meta = Broken | Info(key: string, size: int, rs: seq<Range>, atime: Option<int>)

  datatype Data = Data(size: int, regular: bool, mtime: int)

  datatype Files = Files(meta: map<Path, Meta>, data: map<Path, Data>)

  datatype Item = Item(size: int, rs: seq<Range>, atime: int)

  /** The files, the items loaded and the data paths they own. */
  datatype World = World(files: Files, items: map<string, Item>, known: set<Path>)

  ghost predicate Injective(path: Placing) {
    forall a, b :: path(a) == path(b) ==> a == b
  }

  /** Metadata that can be read and names a key and a size. */
  predicate Legible(m: Meta) {
    m.Info? && m.key != "" && m.size >= 0
  }

  /** A data file that its metadata describes. */
  predicate Fits(m: Meta, d: Data)
    requires m.Info?
  {
    d.regular && d.size == m.size
  }

  /** The item before its ranges are clipped to the size. */
  function Loaded(m: Meta, d: Data): Item
    requires m.Info?
  {
    Item(m.size, m.rs, if m.atime.Some? then m.atime.value else d.mtime)
  }

  function DropMeta(f: Files, r: Path): Files {
    f.(meta := f.meta - {r})
  }

  function DropBoth(f: Files, r: Path): Files {
    Files(f.meta - {r}, f.data - {r})
  }

  function Move(f: Files, r: Path, e: Path): Files
    requires r in f.meta && r in f.data
  {
    Files((f.meta - {r})[e := f.meta[r]], (f.data - {r})[e := f.data[r]])
  }

  function LoadMeta(w: World, r: Path, path: Placing): World {
    var f := w.files;
    if r !in f.meta then w
    else if !Legible(f.meta[r]) then w.(files := DropMeta(f, r))
    else if r !in f.data then w.(files := DropMeta(f, r))
    else if !Fits(f.meta[r], f.data[r]) then w.(files := DropBoth(f, r))
    else
      var m, d := f.meta[r], f.data[r];
      var e := path(m.key);
      if r != e && (e in f.meta || e in f.data) then w.(files := DropBoth(f, r))
      else World(if r == e then f else Move(f, r, e), w.items[m.key := Loaded(m, d)], w.known + {e})
  }

  function LoadAll(w: World, list: seq<Path>, path: Placing): World
    decreases |list|
  {
    if list == [] then w else LoadAll(LoadMeta(w, list[0], path), list[1..], path)
  }

  /** Data that no loaded item owns is removed. */
  function Sweep(w: World): World {
    w.(files := w.files.(data := map r | r in w.files.data && r in w.known :: w.files.data[r]))
  }

  function Reconcile(f: Files, list: seq<Path>, path: Placing): World {
    Sweep(LoadAll(World(f, map[], {}), list, path))
  }

  /******************************* Invariant *********************************/

  predicate Distinct(list: seq<Path>) {
    forall i, j :: 0 <= i < j < |list| ==> list[i] != list[j]
  }

  /** The list names every metadata file once. */
  ghost predicate Lists(list: seq<Path>, f: Files) {
    Distinct(list) && forall r :: r in list <==> r in f.meta
  }

  /** Item k has its metadata and its data file at its place. */
  ghost predicate AtHome(w: World, k: string, path: Placing) {
    var e := path(k);
    && k in w.items && e in w.known
    && e in w.files.meta && e in w.files.data
    && Legible(w.files.meta[e]) && w.files.meta[e].key == k
    && Fits(w.files.meta[e], w.files.data[e])
    && w.items[k] == Loaded(w.files.meta[e], w.files.data[e])
  }

  /** The files at r are as they were at first, and nobody's. */
  ghost predicate Pending(w: World, f: Files, r: Path) {
    && r in f.meta && r in w.files.meta && w.files.meta[r] == f.meta[r] && r !in w.known
    && (r in w.files.data <==> r in f.data)
    && (r in f.data ==> w.files.data[r] == f.data[r])
  }

  /** A file as found at first, from which item k was loaded. */
  ghost predicate Source(f: Files, r: Path, k: string, item: Item) {
    && r in f.meta && Legible(f.meta[r]) && f.meta[r].key == k
    && r in f.data && Fits(f.meta[r], f.data[r]) && item == Loaded(f.meta[r], f.data[r])
  }

  ghost predicate Sourced(f: Files, k: string, item: Item) {
    exists r :: Source(f, r, k, item)
  }

  ghost predicate Inv(w: World, f: Files, rest: seq<Path>, path: Placing) {
    && Distinct(rest)
    && (forall k :: k in w.items ==> AtHome(w, k, path) && Sourced(f, k, w.items[k]))
    && (forall e :: e in w.known ==> exists k :: k in w.items && path(k) == e)
    && (forall r :: r in rest ==> Pending(w, f, r))
    && (forall r :: r in w.files.meta ==> r in w.known || r in rest)
  }

  /** Only the files at r and, if free, at the place of its key are touched. */
  lemma LoadMetaTouches(w: World, r: Path, path: Placing, x: Path)
    requires r in w.files.meta && x != r
    ensures var w' := LoadMeta(w, r, path);
      && (x in w.files.meta ==> x in w'.files.meta && w'.files.meta[x] == w.files.meta[x])
      && (x in w.files.data ==> x in w'.files.data && w'.files.data[x] == w.files.data[x])
      && (x in w.files.meta ==> (x in w'.files.data <==> x in w.files.data))
      && (x in w'.files.meta && x !in w.files.meta ==>
            Legible(w.files.meta[r]) && x == path(w.files.meta[r].key) && x in w'.known)
      && (x in w'.files.data && x !in w.files.data ==> Legible(w.files.meta[r]) && x == path(w.files.meta[r].key))
  {
  }

  /** An item once loaded is not touched by other files, whatever they claim. */
  lemma HomeStays(w: World, r: Path, path: Placing, k: string)
    requires AtHome(w, k, path) && r !in w.known && Injective(path)
    ensures AtHome(LoadMeta(w, r, path), k, path) && LoadMeta(w, r, path).items[k] == w.items[k]
  {
    if r in w.files.meta {
      LoadMetaTouches(w, r, path, path(k));
    }
  }

  lemma PendingStays(w: World, f: Files, r: Path, path: Placing, x: Path)
    requires Pending(w, f, x) && x != r
    ensures Pending(LoadMeta(w, r, path), f, x)
  {
    if r in w.files.meta {
      LoadMetaTouches(w, r, path, x);
    }
  }

  predicate Loads(w: World, r: Path, path: Placing) {
    && r in w.files.meta && Legible(w.files.meta[r]) && r in w.files.data
    && Fits(w.files.meta[r], w.files.data[r])
    && var e := path(w.files.meta[r].key);
       r == e || (e !in w.files.meta && e !in w.files.data)
  }

  lemma LoadsHome(w: World, f: Files, r: Path, path: Placing)
    requires Loads(w, r, path) && Pending(w, f, r)
    ensures var k, w' := f.meta[r].key, LoadMeta(w, r, path);
      && AtHome(w', k, path) && Source(f, r, k, w'.items[k])
      && w'.known == w.known + {path(k)}
      && (forall x :: x in w'.items <==> x in w.items || x == k)
      && (forall x :: x in w.items && x != k ==> w'.items[x] == w.items[x])
  {
  }

  lemma LoadsNot(w: World, r: Path, path: Placing)
    requires !Loads(w, r, path)
    ensures var w' := LoadMeta(w, r, path); w'.items == w.items && w'.known == w.known && r !in w'.files.meta
  {
  }

  lemma LoadMetaKeeps(w: World, f: Files, rest: seq<Path>, path: Placing)
    requires Inv(w, f, rest, path) && rest != [] && Injective(path)
    ensures Inv(LoadMeta(w, rest[0], path), f, rest[1..], path)
  {
    var r, w' := rest[0], LoadMeta(w, rest[0], path);
    assert r in rest;
    forall k | k in w'.items
      ensures AtHome(w', k, path) && Sourced(f, k, w'.items[k])
    {
      if k in w.items {
        HomeStays(w, r, path, k);
      } else if Loads(w, r, path) {
        LoadsHome(w, f, r, path);
      } else {
        LoadsNot(w, r, path);
      }
    }
    forall e | e in w'.known
      ensures exists k :: k in w'.items && path(k) == e
    {
      if e in w.known {
        var k :| k in w.items && path(k) == e;
        HomeStays(w, r, path, k);
        assert k in w'.items;
      } else {
        assert Loads(w, r, path);
        LoadsHome(w, f, r, path);
        assert f.meta[r].key in w'.items;
      }
    }
    forall x | x in rest[1..]
      ensures Pending(w', f, x)
    {
      assert x in rest && x != r;
      PendingStays(w, f, r, path, x);
    }
    forall x | x in w'.files.meta
      ensures x in w'.known || x in rest[1..]
    {
      NothingElse(w, f, rest, path, x);
    }
  }

  lemma NothingElse(w: World, f: Files, rest: seq<Path>, path: Placing, x: Path)
    requires Inv(w, f, rest, path) && rest != [] && Injective(path)
    requires x in LoadMeta(w, rest[0], path).files.meta
    ensures x in LoadMeta(w, rest[0], path).known || x in rest[1..]
  {
    var r := rest[0];
    assert r in rest;
    if x != r {
      LoadMetaTouches(w, r, path, x);
    } else if !Loads(w, r, path) {
      LoadsNot(w, r, path);
    }
  }

  lemma {:induction false} LoadAllKeeps(w: World, f: Files, rest: seq<Path>, path: Placing)
    requires Inv(w, f, rest, path) && Injective(path)
    ensures Inv(LoadAll(w, rest, path), f, [], path)
    decreases |rest|
  {
    if rest != [] {
      LoadMetaKeeps(w, f, rest, path);
      LoadAllKeeps(LoadMeta(w, rest[0], path), f, rest[1..], path);
    }
  }

  lemma StartInv(f: Files, list: seq<Path>, path: Placing)
    requires Lists(list, f)
    ensures Inv(World(f, map[], {}), f, list, path)
  {
  }

  /***************************** Main theorems *******************************/

  /** Metadata `m` and data file `d` say together that there is such an item of key k. */
  predicate Describes(m: Meta, d: Data, k: string, item: Item) {
    && m.Info? && m.key == k != "" && m.size >= 0
    && d.regular && d.size == m.size
    && item.size == m.size && item.rs == m.rs
    && item.atime == if m.atime.Some? then m.atime.value else d.mtime
  }

  /** Every metadata file is legible and at the place of its key, with a data file that fits; there is nothing else. */
  ghost predicate Tidy(f: Files, path: Placing) {
    && (forall r :: r in f.meta <==> r in f.data)
    && (forall r :: r in f.meta ==>
          Legible(f.meta[r]) && path(f.meta[r].key) == r && Fits(f.meta[r], f.data[r]))
  }

  /**
   A start leaves exactly one metadata and one data file for each item loaded, at
   its place and of its size, and every item comes from a pair of files found.
   */
  lemma StartIsTidy(f: Files, list: seq<Path>, path: Placing)
    requires Lists(list, f) && Injective(path)
    ensures var w := Reconcile(f, list, path);
      && Tidy(w.files, path)
      && (forall k :: k in w.items <==> path(k) in w.files.data && w.files.meta[path(k)].key == k)
      && (forall e :: e in w.files.data ==> exists k :: k in w.items && path(k) == e)
      && (forall k :: k in w.items ==> AtHome(w, k, path) && Sourced(f, k, w.items[k]))
  {
    StartInv(f, list, path);
    var w0 := World(f, map[], {});
    LoadAllKeeps(w0, f, list, path);
    var l := LoadAll(w0, list, path);
    var w := Sweep(l);
    forall k | k in w.items
      ensures AtHome(w, k, path)
    {
      assert AtHome(l, k, path);
    }
    forall e | e in w.files.data || e in w.files.meta
      ensures e in w.known && e in w.files.data && e in w.files.meta
      ensures exists k :: k in w.items && path(k) == e
    {
      var k :| k in l.items && path(k) == e;
      assert AtHome(l, k, path);
    }
  }

  /** Every item is what its files, before and after the start, say of it. */
  lemma ItemsAsDescribed(f: Files, list: seq<Path>, path: Placing, k: string) returns (r: Path)
    requires Lists(list, f) && Injective(path) && k in Reconcile(f, list, path).items
    ensures var w, e := Reconcile(f, list, path), path(k);
      && e in w.files.meta && e in w.files.data && Describes(w.files.meta[e], w.files.data[e], k, w.items[k])
      && r in f.meta && r in f.data && Describes(f.meta[r], f.data[r], k, w.items[k])
  {
    StartIsTidy(f, list, path);
    var w := Reconcile(f, list, path);
    assert AtHome(w, k, path);
    r :| Source(f, r, k, w.items[k]);
  }

  lemma {:induction false} HomeStaysAll(w: World, f: Files, rest: seq<Path>, path: Placing, k: string)
    requires Inv(w, f, rest, path) && Injective(path) && k in w.items
    ensures var w' := LoadAll(w, rest, path); k in w'.items && w'.items[k] == w.items[k]
    decreases |rest|
  {
    if rest != [] {
      var r := rest[0];
      assert r in rest;
      HomeStays(w, r, path, k);
      LoadMetaKeeps(w, f, rest, path);
      HomeStaysAll(LoadMeta(w, r, path), f, rest[1..], path, k);
    }
  }

  /** The place of r's key is r itself or has been free and claimed by nobody else. */
  ghost predicate Unrivalled(w: World, f: Files, r: Path, path: Placing)
    requires r in f.meta && Legible(f.meta[r])
  {
    var k := f.meta[r].key;
    var e := path(k);
    || e == r
    || (&& e !in w.files.meta && e !in w.files.data
        && forall x :: x in f.meta && x != r ==> !(Legible(f.meta[x]) && f.meta[x].key == k))
  }

  lemma UnrivalledStays(w: World, f: Files, rest: seq<Path>, r: Path, path: Placing)
    requires Inv(w, f, rest, path) && Injective(path) && rest != [] && r != rest[0]
    requires r in f.meta && Legible(f.meta[r]) && Unrivalled(w, f, r, path)
    ensures Unrivalled(LoadMeta(w, rest[0], path), f, r, path)
  {
    assert rest[0] in rest;
    var e := path(f.meta[r].key);
    if e != r {
      LoadMetaTouches(w, rest[0], path, e);
    }
  }

  lemma {:induction false} LoadedWhenUnrivalled(w: World, f: Files, rest: seq<Path>, r: Path, path: Placing)
    requires Inv(w, f, rest, path) && Injective(path) && r in rest
    requires r in f.meta && Legible(f.meta[r]) && Unrivalled(w, f, r, path)
    requires r in f.data && Fits(f.meta[r], f.data[r])
    ensures var k, w' := f.meta[r].key, LoadAll(w, rest, path);
      k in w'.items && w'.items[k] == Loaded(f.meta[r], f.data[r])
    decreases |rest|
  {
    var w1 := LoadMeta(w, rest[0], path);
    LoadMetaKeeps(w, f, rest, path);
    if rest[0] == r {
      LoadsHome(w, f, r, path);
      HomeStaysAll(w1, f, rest[1..], path, f.meta[r].key);
    } else {
      UnrivalledStays(w, f, rest, r, path);
      LoadedWhenUnrivalled(w1, f, rest[1..], r, path);
    }
  }

  /**
   A good pair of files is loaded if it is at its place, or if its place is free
   and no other metadata names its key; in whatever order the files are met.
   */
  lemma GoodPairsLoad(f: Files, list: seq<Path>, path: Placing, r: Path, item: Item)
    requires Lists(list, f) && Injective(path)
    requires r in f.meta && f.meta[r].Info? && r in f.data && Describes(f.meta[r], f.data[r], f.meta[r].key, item)
    requires path(f.meta[r].key) == r ||
      (&& path(f.meta[r].key) !in f.meta && path(f.meta[r].key) !in f.data
       && forall x :: x in f.meta && x != r && f.meta[x].Info? ==> f.meta[x].key != f.meta[r].key)
    ensures var k, w := f.meta[r].key, Reconcile(f, list, path);
      k in w.items && w.items[k] == item
  {
    StartInv(f, list, path);
    LoadedWhenUnrivalled(World(f, map[], {}), f, list, r, path);
  }

  lemma {:induction false} TidyLoads(w: World, rest: seq<Path>, path: Placing)
    requires Tidy(w.files, path) && forall r :: r in rest ==> r in w.files.meta
    ensures var w' := LoadAll(w, rest, path);
      w'.files == w.files && forall r :: r in rest || r in w.known ==> r in w'.known
    decreases |rest|
  {
    if rest != [] {
      var r := rest[0];
      assert r in rest;
      assert LoadMeta(w, r, path).files == w.files;
      TidyLoads(LoadMeta(w, r, path), rest[1..], path);
      assert forall x :: x in rest <==> x == r || x in rest[1..];
    }
  }

  /** A second start finds everything as the first one left it. */
  lemma RestartChangesNothing(f: Files, list: seq<Path>, again: seq<Path>, path: Placing)
    requires Lists(list, f) && Injective(path) && Lists(again, Reconcile(f, list, path).files)
    ensures var w := Reconcile(f, list, path);
      var w' := Reconcile(w.files, again, path);
      w'.files == w.files && w'.items == w.items
  {
    var w := Reconcile(f, list, path);
    StartIsTidy(f, list, path);
    TidyLoads(World(w.files, map[], {}), again, path);
    var w' := Reconcile(w.files, again, path);
    assert w'.files.data == w.files.data;
    StartIsTidy(w.files, again, path);
    forall k | k in w.items || k in w'.items
      ensures k in w.items && k in w'.items && w.items[k] == w'.items[k]
    {
      assert k in w.items ==> AtHome(w, k, path);
      assert k in w'.items ==> AtHome(w', k, path);
      assert k in w.items <==> k in w'.items;
    }
  }

  /******************************* The cache *********************************/

  /** What clipping leaves: only bytes inside the object, and all of them if the list was in order. */
  ghost predicate Clipped(raw: seq<Range>, size: int, rs: seq<Range>) {
    && (raw == [] ==> rs == [])
    && (raw != [] ==> Canonical(rs))
    && (forall b :: Covers(rs, b) ==> Covers(raw, b) && 0 <= b < size)
    && (Canonical(raw) ==> forall b :: Covers(rs, b) <==> Covers(raw, b) && 0 <= b < size)
  }

  ghost predicate ClippedItem(raw: Item, item: Item) {
    item.size == raw.size && item.atime == raw.atime && Clipped(raw.rs, raw.size, item.rs)
  }

  ghost predicate ClippedItems(raw: map<string, Item>, items: map<string, Item>) {
    && (forall k :: k in raw <==> k in items)
    && (forall k :: k in raw ==> ClippedItem(raw[k], items[k]))
  }

  class Cache {
    const path: Placing
    var files: Files
    var items: map<string, Item>

    constructor (path: Placing, files: Files)
      ensures this.path == path && this.files == files && items == map[]
    {
      this.path, this.files, items := path, files, map[];
    }

    method LoadExistingMeta(r: Path, ghost w: World) returns (known: Option<Path>, ghost w': World)
      requires w.files == files && ClippedItems(w.items, items)
      modifies this
      ensures w' == LoadMeta(w, r, path) && w'.files == files && ClippedItems(w'.items, items)
      ensures w'.known == w.known + if known.Some? then {known.value} else {}
    {
      w' := LoadMeta(w, r, path);
      known := None;
      if r !in files.meta {
        return;
      }
      var m := files.meta[r];
      if m == Broken || m.key == "" || m.size < 0 || r !in files.data {
        files := DropMeta(files, r);
        return;
      }
      var d := files.data[r];
      if !d.regular || d.size != m.size {
        files := DropBoth(files, r);
        return;
      }
      var e := path(m.key);
      if r != e {
        if e in files.meta || e in files.data {
          files := DropBoth(files, r);
          return;
        }
        files := Move(files, r, e);
      }
      var rs := RangeQueries.Intersection(m.rs, Range(0, m.size));
      var item := Item(m.size, rs, if m.atime.Some? then m.atime.value else d.mtime);
      assert ClippedItem(Loaded(m, d), item);
      items := items[m.key := item];
      known := Some(e);
    }

    /** Everything that is listed is looked at once; then unowned data goes. */
    method LoadExisting(list: seq<Path>)
      requires Lists(list, files) && items == map[] && Injective(path)
      modifies this
      ensures var w := Reconcile(old(files), list, path);
        files == w.files && ClippedItems(w.items, items)
    {
      ghost var w := World(files, map[], {});
      var known: set<Path> := {};
      var i := 0;
      while i < |list|
        invariant 0 <= i <= |list|
        invariant w.files == files && w.known == known && ClippedItems(w.items, items)
        invariant LoadAll(w, list[i..], path) == LoadAll(World(old(files), map[], {}), list, path)
      {
        assert list[i..][1..] == list[i + 1..];
        var dataPath;
        dataPath, w := LoadExistingMeta(list[i], w);
        if dataPath.Some? {
          known := known + {dataPath.value};
        }
        i := i + 1;
      }
      files := files.(data := map r | r in files.data && r in known :: files.data[r]);
    }
  }
}
