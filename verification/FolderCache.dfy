/**
  The path cache of the import: where in the remote folder tree a path leads, creating
  the folders that are missing.
  */
module FolderCache {
  import opened Prelude

  type Id = nat
  type Path = seq<string>

  datatype Node = Node(name: string, parent: Option<Id>)

  type Tree = map<Id, Node>

  const NUL: char := '\0'

  // --- Keys -----------------------------------------------------------------------

  /** The segments joined by NUL. */
  function FolderKey(path: Path): string {
    if path == [] then "" else if |path| == 1 then path[0]
    else FolderKey(path[..|path| - 1]) + [NUL] + path[|path| - 1]
  }

  /** The path a key spells: split at every NUL. */
  function PathOf(key: string): (path: Path)
    ensures path != []
  {
    if key == "" then [""] else
      var n := |key| - 1;
      var front := PathOf(key[..n]);
      if key[n] == NUL then front + [""] else front[..|front| - 1] + [front[|front| - 1] + [key[n]]]
  }

  predicate IsNulFree(path: Path) {
    forall k :: 0 <= k < |path| ==> NUL !in path[k]
  }

  lemma {:induction false} PathOfAppend(key: string, segment: string)
    requires NUL !in segment
    ensures PathOf(key + [NUL] + segment) == PathOf(key) + [segment]
  {
    var n := |segment| - 1;
    var whole := key + [NUL] + segment;
    if segment == "" {
      assert whole == key + [NUL] && whole[..|key|] == key;
    } else {
      assert whole[..|whole| - 1] == key + [NUL] + segment[..n];
      PathOfAppend(key, segment[..n]);
      assert segment[..n] + [segment[n]] == segment;
    }
  }

  lemma {:induction false} PathOfSegment(segment: string)
    requires NUL !in segment
    ensures PathOf(segment) == [segment]
  {
    if segment != "" {
      var n := |segment| - 1;
      PathOfSegment(segment[..n]);
      assert segment[..n] + [segment[n]] == segment;
    }
  }

  lemma {:induction false} PathIsNulFree(key: string)
    ensures IsNulFree(PathOf(key))
  {
    if key != "" {
      PathIsNulFree(key[..|key| - 1]);
    }
  }

  /** A key is the key of the path it spells. */
  lemma {:induction false} KeyOfPath(key: string)
    ensures FolderKey(PathOf(key)) == key
  {
    if key != "" {
      var n := |key| - 1;
      var front := PathOf(key[..n]);
      KeyOfPath(key[..n]);
      var path := PathOf(key);
      hide PathOf;
      assert key == key[..n] + [key[n]];
      if key[n] == NUL {
        assert path[..|path| - 1] == front;
      } else {
        assert path[..|path| - 1] == front[..|front| - 1];
        if |path| > 1 {
          var head := FolderKey(front[..|front| - 1]) + [NUL];
          assert head + (front[|front| - 1] + [key[n]]) == (head + front[|front| - 1]) + [key[n]];
        }
      }
    }
  }

  /** A path is found again under its key exactly if no segment contains a NUL. */
  lemma {:induction false} PathOfKeyExactly(path: Path)
    requires path != []
    ensures PathOf(FolderKey(path)) == path <==> IsNulFree(path)
  {
    PathIsNulFree(FolderKey(path));
    if IsNulFree(path) {
      NulFreeRoundTrip(path);
    }
  }

  lemma {:induction false} NulFreeRoundTrip(path: Path)
    requires path != [] && IsNulFree(path)
    ensures PathOf(FolderKey(path)) == path
  {
    hide PathOf;
    var n := |path| - 1;
    if n == 0 {
      PathOfSegment(path[0]);
      assert path == [path[0]];
    } else {
      NulFreeRoundTrip(path[..n]);
      PathOfAppend(FolderKey(path[..n]), path[n]);
      assert path == path[..n] + [path[n]];
    }
  }

  /** One more segment, spelled out. */
  lemma KeyOfPrefix(path: Path, i: nat)
    requires 1 <= i <= |path| && NUL !in path[i - 1]
    ensures PathOf(FolderKey(path[..i])) ==
      (if i == 1 then [] else PathOf(FolderKey(path[..i - 1]))) + [path[i - 1]]
  {
    if i == 1 {
      PathOfSegment(path[0]);
    } else {
      assert path[..i][..i - 1] == path[..i - 1];
      PathOfAppend(FolderKey(path[..i - 1]), path[i - 1]);
    }
  }

  lemma {:induction false} LongerPrefixLongerKey(path: Path, i: nat, j: nat)
    requires 1 <= i < j <= |path|
    ensures |FolderKey(path[..i])| < |FolderKey(path[..j])|
  {
    assert path[..j][..j - 1] == path[..j - 1];
    if i < j - 1 {
      LongerPrefixLongerKey(path, i, j - 1);
    }
  }

  // --- Where a folder sits -----------------------------------------------------------

  /** The folder sits at exactly this path. */
  predicate AtPath(tree: Tree, id: Id, path: Path)
    decreases |path|
  {
    && path != [] && id in tree && tree[id].name == path[|path| - 1]
    && if |path| == 1 then tree[id].parent.None?
       else tree[id].parent.Some? && AtPath(tree, tree[id].parent.value, path[..|path| - 1])
  }

  predicate Extends(before: Tree, after: Tree) {
    forall id :: id in before ==> id in after && after[id] == before[id]
  }

  lemma {:induction false} AtPathExtends(before: Tree, after: Tree, id: Id, path: Path)
    requires Extends(before, after) && AtPath(before, id, path)
    ensures AtPath(after, id, path)
    decreases |path|
  {
    if |path| > 1 {
      AtPathExtends(before, after, before[id].parent.value, path[..|path| - 1]);
    }
  }

  lemma ChildAtPath(tree: Tree, id: Id, parent: Option<Id>, path: Path, name: string)
    requires id in tree && tree[id] == Node(name, parent)
    requires if parent.None? then path == [] else AtPath(tree, parent.value, path)
    ensures AtPath(tree, id, path + [name])
  {
    assert (path + [name])[..|path|] == path;
  }

  type Cache = map<string, Id>

  /** Each key leads to a folder that sits at the path it spells. */
  predicate LeadsRight(tree: Tree, cache: Cache) {
    forall key :: key in cache ==> AtPath(tree, cache[key], PathOf(key))
  }

  /** With a path, its parent path is cached. */
  predicate IsPrefixClosed(cache: Cache) {
    forall key :: key in cache && |PathOf(key)| > 1 ==> FolderKey(PathOf(key)[..|PathOf(key)| - 1]) in cache
  }

  lemma LeadsRightExtends(before: Tree, after: Tree, cache: Cache)
    requires Extends(before, after) && LeadsRight(before, cache)
    ensures LeadsRight(after, cache)
  {
    forall key | key in cache ensures AtPath(after, cache[key], PathOf(key)) {
      AtPathExtends(before, after, cache[key], PathOf(key));
    }
  }

  // --- The cache of what is there ------------------------------------------------------

  /** A node of the tree a listing returns. */
  datatype Folder = Folder(id: Id, name: string, children: seq<Folder>)

  /** fs are folders of the tree, under parent. */
  predicate Listed(tree: Tree, parent: Option<Id>, fs: seq<Folder>)
    decreases fs
  {
    forall k :: 0 <= k < |fs| ==>
      && fs[k].id in tree && tree[fs[k].id] == Node(fs[k].name, parent) && NUL !in fs[k].name
      && Listed(tree, Some(fs[k].id), fs[k].children)
  }

  /** Every folder of the tree under parent is among fs. */
  ghost predicate ListsAll(tree: Tree, parent: Option<Id>, fs: seq<Folder>)
    decreases fs
  {
    && (forall id :: id in tree && tree[id].parent == parent ==> exists k :: 0 <= k < |fs| && fs[k].id == id)
    && (forall k :: 0 <= k < |fs| ==> ListsAll(tree, Some(fs[k].id), fs[k].children))
  }

  /** Every folder of the tree has its path in the cache. */
  ghost predicate MissesNone(tree: Tree, cache: Cache) {
    forall id, path :: AtPath(tree, id, path) ==> FolderKey(path) in cache
  }

  /** Every path in the listing has its key. */
  predicate Covers(cache: Cache, prefix: Path, fs: seq<Folder>)
    decreases fs
  {
    forall k :: 0 <= k < |fs| ==>
      FolderKey(prefix + [fs[k].name]) in cache && Covers(cache, prefix + [fs[k].name], fs[k].children)
  }

  lemma {:induction false} CoversMore(cache: Cache, more: Cache, prefix: Path, fs: seq<Folder>)
    requires Covers(cache, prefix, fs) && cache.Keys <= more.Keys
    ensures Covers(more, prefix, fs)
    decreases fs
  {
    forall k | 0 <= k < |fs| ensures Covers(more, prefix + [fs[k].name], fs[k].children) {
      CoversMore(cache, more, prefix + [fs[k].name], fs[k].children);
    }
  }

  datatype Row = Row(path: Path, id: Id)

  /** The folders of a listing with their paths, each before those below it. */
  function Rows(prefix: Path, fs: seq<Folder>): seq<Row>
    decreases fs
  {
    if fs == [] then [] else
      var n := |fs| - 1;
      var p := prefix + [fs[n].name];
      Rows(prefix, fs[..n]) + [Row(p, fs[n].id)] + Rows(p, fs[n].children)
  }

  /** The cache after entering the rows in turn. */
  function Entered(cache: Cache, rows: seq<Row>): Cache {
    if rows == [] then cache else
      var n := |rows| - 1;
      Entered(cache, rows[..n])[FolderKey(rows[n].path) := rows[n].id]
  }

  lemma {:induction false} EnteredInTurn(cache: Cache, a: seq<Row>, b: seq<Row>)
    ensures Entered(cache, a + b) == Entered(Entered(cache, a), b)
  {
    if b == [] {
      assert a + b == a;
    } else {
      EnteredInTurn(cache, a, b[..|b| - 1]);
      assert (a + b)[..|a + b| - 1] == a + b[..|b| - 1];
    }
  }

  /** No later row has the key of row k. */
  predicate IsLast(rows: seq<Row>, k: nat) {
    k < |rows| && forall j :: k < j < |rows| ==> FolderKey(rows[j].path) != FolderKey(rows[k].path)
  }

  /** Of the folders with one key the last one entered is found. */
  lemma {:induction false} LastEnteredWins(cache: Cache, rows: seq<Row>, k: nat)
    requires IsLast(rows, k)
    ensures FolderKey(rows[k].path) in Entered(cache, rows)
    ensures Entered(cache, rows)[FolderKey(rows[k].path)] == rows[k].id
  {
    hide FolderKey;
    if k < |rows| - 1 {
      LastEnteredWins(cache, rows[..|rows| - 1], k);
    }
  }

  /** A key is found exactly if it was there before or is entered. */
  lemma {:induction false} FoundExactly(cache: Cache, rows: seq<Row>, key: string)
    ensures key in Entered(cache, rows) <==> key in cache || exists r :: r in rows && FolderKey(r.path) == key
  {
    hide FolderKey;
    if rows != [] {
      var n := |rows| - 1;
      FoundExactly(cache, rows[..n], key);
      assert rows == rows[..n] + [rows[n]];
    }
  }

  /** The keys are those of the rows, and each leads where the last row with it says. */
  ghost predicate HoldsTheLast(cache: Cache, rows: seq<Row>) {
    && (forall key :: key in cache <==> exists r :: r in rows && FolderKey(r.path) == key)
    && forall k: nat :: IsLast(rows, k) ==>
         FolderKey(rows[k].path) in cache && cache[FolderKey(rows[k].path)] == rows[k].id
  }

  lemma EnteredHoldsTheLast(rows: seq<Row>)
    ensures HoldsTheLast(Entered(map[], rows), rows)
  {
    hide FolderKey, Entered;
    forall key ensures key in Entered(map[], rows) <==> exists r :: r in rows && FolderKey(r.path) == key {
      FoundExactly(map[], rows, key);
    }
    forall k: nat | IsLast(rows, k)
      ensures FolderKey(rows[k].path) in Entered(map[], rows)
      ensures Entered(map[], rows)[FolderKey(rows[k].path)] == rows[k].id
    {
      LastEnteredWins(map[], rows, k);
    }
  }

  lemma OneMoreFolder(cache: Cache, prefix: Path, fs: seq<Folder>, i: nat)
    requires i < |fs|
    ensures
      var p := prefix + [fs[i].name];
      Entered(cache, Rows(prefix, fs[..i + 1])) ==
        Entered(Entered(cache, Rows(prefix, fs[..i]))[FolderKey(p) := fs[i].id], Rows(p, fs[i].children))
  {
    hide FolderKey, Entered;
    var p := prefix + [fs[i].name];
    var front := Rows(prefix, fs[..i]);
    assert fs[..i + 1][..i] == fs[..i];
    EnteredInTurn(cache, front + [Row(p, fs[i].id)], Rows(p, fs[i].children));
    EnteredOne(cache, front, Row(p, fs[i].id));
  }

  lemma NothingEntered(cache: Cache, prefix: Path)
    ensures Entered(cache, Rows(prefix, [])) == cache
  {
  }

  lemma EnteredOne(cache: Cache, rows: seq<Row>, row: Row)
    ensures Entered(cache, rows + [row]) == Entered(cache, rows)[FolderKey(row.path) := row.id]
  {
    assert (rows + [row])[..|rows|] == rows;
  }

  class CacheBox {
    var ids: Cache

    constructor ()
      ensures ids == map[]
    {
      ids := map[];
    }
  }

  /** Where the walk stands: prefix is the path of parent, and it is cached. */
  ghost predicate Stands(tree: Tree, cache: Cache, parent: Option<Id>, prefix: Path) {
    && IsNulFree(prefix)
    && if parent.None? then prefix == [] else AtPath(tree, parent.value, prefix) && FolderKey(prefix) in cache
  }

  method Walk(ghost tree: Tree, ghost parent: Option<Id>, prefix: Path, fs: seq<Folder>, cache: CacheBox)
    requires Listed(tree, parent, fs) && Stands(tree, cache.ids, parent, prefix)
    requires LeadsRight(tree, cache.ids) && IsPrefixClosed(cache.ids)
    modifies cache
    ensures LeadsRight(tree, cache.ids) && IsPrefixClosed(cache.ids)
    ensures old(cache.ids).Keys <= cache.ids.Keys
    ensures Covers(cache.ids, prefix, fs)
    ensures cache.ids == Entered(old(cache.ids), Rows(prefix, fs))
    decreases fs
  {
    hide AtPath, PathOf, FolderKey, Rows, Entered;
    NothingEntered(cache.ids, prefix);
    for i := 0 to |fs|
      invariant LeadsRight(tree, cache.ids) && IsPrefixClosed(cache.ids)
      invariant old(cache.ids).Keys <= cache.ids.Keys
      invariant Covers(cache.ids, prefix, fs[..i])
      invariant cache.ids == Entered(old(cache.ids), Rows(prefix, fs[..i]))
    {
      var f, p := fs[i], prefix + [fs[i].name];
      ghost var before := cache.ids;
      ChildAtPath(tree, f.id, parent, prefix, f.name);
      PutKeepsCache(tree, cache.ids, p, f.id);
      cache.ids := cache.ids[FolderKey(p) := f.id];
      Walk(tree, Some(f.id), p, f.children, cache);
      CoversMore(before, cache.ids, prefix, fs[..i]);
      assert fs[..i + 1] == fs[..i] + [f];
      OneMoreFolder(old(cache.ids), prefix, fs, i);
    }
    assert fs[..|fs|] == fs;
  }

  lemma PutKeepsCache(tree: Tree, cache: Cache, path: Path, id: Id)
    requires LeadsRight(tree, cache) && IsPrefixClosed(cache)
    requires path != [] && IsNulFree(path) && AtPath(tree, id, path)
    requires |path| > 1 ==> FolderKey(path[..|path| - 1]) in cache
    ensures LeadsRight(tree, cache[FolderKey(path) := id]) && IsPrefixClosed(cache[FolderKey(path) := id])
  {
    NulFreeRoundTrip(path);
  }

  /** A folder of a tree that is listed whole is cached, and so is all that is listed below it. */
  lemma {:induction false} FolderIsCovered(tree: Tree, cache: Cache, fs: seq<Folder>, id: Id, path: Path)
    returns (children: seq<Folder>)
    requires Listed(tree, None, fs) && ListsAll(tree, None, fs) && Covers(cache, [], fs) && AtPath(tree, id, path)
    ensures FolderKey(path) in cache
    ensures Listed(tree, Some(id), children) && ListsAll(tree, Some(id), children) && Covers(cache, path, children)
    decreases |path|
  {
    hide FolderKey;
    var front, siblings := path[..|path| - 1], fs;
    if |path| > 1 {
      siblings := FolderIsCovered(tree, cache, fs, tree[id].parent.value, front);
    }
    var k :| 0 <= k < |siblings| && siblings[k].id == id;
    assert path == front + [siblings[k].name];
    children := siblings[k].children;
  }

  /** The cache built from a listing leads right, is prefix-closed and misses no folder of it;
    if the listing is whole, no folder of the tree. Nothing else has a key, and of the folders
    with one key the last in the walk is found. */
  method BuildFolderCache(folders: seq<Folder>, ghost tree: Tree) returns (cache: CacheBox)
    requires Listed(tree, None, folders)
    ensures fresh(cache)
    ensures LeadsRight(tree, cache.ids) && IsPrefixClosed(cache.ids) && Covers(cache.ids, [], folders)
    ensures ListsAll(tree, None, folders) ==> MissesNone(tree, cache.ids)
    ensures HoldsTheLast(cache.ids, Rows([], folders))
  {
    cache := new CacheBox();
    Walk(tree, None, [], folders, cache);
    ghost var ids := cache.ids;
    EnteredHoldsTheLast(Rows([], folders));
    if ListsAll(tree, None, folders) {
      hide AtPath, Listed, ListsAll, Covers, LeadsRight, IsPrefixClosed;
      forall id, path | AtPath(tree, id, path) ensures FolderKey(path) in ids {
        var _ := FolderIsCovered(tree, ids, folders, id, path);
      }
    }
  }

  // --- Resolving a path -----------------------------------------------------------------

  function Rest(answers: seq<bool>, n: nat): seq<bool> {
    if n <= |answers| then answers[n..] else []
  }

  /** The server's folders. Any request may be refused; a name with a NUL or a parent that is
    not there always is. */
  class Remote {
    var tree: Tree
    var next: Id
    var answers: seq<bool>

    ghost predicate Valid()
      reads this
    {
      forall id :: id in tree ==> id < next && (tree[id].parent.Some? ==> tree[id].parent.value in tree)
    }

    method CreateFolder(name: string, parent: Option<Id>) returns (r: Option<Id>)
      requires Valid()
      modifies this
      ensures Valid()
      ensures r.Some? <==>
        && old(answers) != [] && old(answers)[0] && NUL !in name
        && (parent.Some? ==> parent.value in old(tree))
      ensures answers == Rest(old(answers), 1)
      ensures r.None? ==> tree == old(tree)
      ensures r.Some? ==> r.value !in old(tree) && tree == old(tree)[r.value := Node(name, parent)]
    {
      var ok := answers != [] && answers[0] && NUL !in name && (parent.Some? ==> parent.value in tree);
      answers := if answers == [] then [] else answers[1..];
      if !ok {
        return None;
      }
      tree, next := tree[next := Node(name, parent)], next + 1;
      r := Some(next - 1);
    }
  }

  /** How many of the first n prefixes of the path are not cached. */
  function Missing(cache: Cache, path: Path, n: nat): nat
    requires n <= |path|
  {
    if n == 0 then 0 else Missing(cache, path, n - 1) + if FolderKey(path[..n]) in cache then 0 else 1
  }

  /** The next prefix is cached, or the server will grant the request for it. */
  predicate IsGranted(answers: seq<bool>, cache: Cache, path: Path, i: nat)
    requires i < |path|
  {
    || FolderKey(path[..i + 1]) in cache
    || (NUL !in path[i] && Missing(cache, path, i) < |answers| && answers[Missing(cache, path, i)])
  }

  /** The first n prefixes are granted, the next one is not. */
  predicate IsRefusedAt(answers: seq<bool>, cache: Cache, path: Path, n: nat) {
    && n < |path| && !IsGranted(answers, cache, path, n)
    && forall i :: 0 <= i < n ==> IsGranted(answers, cache, path, i)
  }

  /** What a refused path leaves behind: the folders for the prefixes before it, all cached. */
  predicate IsLeft(tree0: Tree, cache0: Cache, tree: Tree, cache: Cache, path: Path, n: nat)
    requires n < |path|
  {
    && |tree| == |tree0| + Missing(cache0, path, n)
    && Missing(cache, path, n) == 0 && FolderKey(path[..n + 1]) !in cache
  }

  /** Entries are added, never changed. */
  predicate OnlyAdds(before: Cache, after: Cache) {
    forall key :: key in before ==> key in after && after[key] == before[key]
  }

  predicate IsSound(tree: Tree, cache: Cache) {
    LeadsRight(tree, cache) && IsPrefixClosed(cache)
  }

  /** The first n prefixes of the path are cached, the others are as they were, and there is
    one new folder for each of the first n that was missing. */
  ghost predicate Reached(tree0: Tree, cache0: Cache, tree: Tree, cache: Cache, path: Path, n: nat, parent: Option<Id>)
    requires n <= |path|
  {
    && Extends(tree0, tree) && OnlyAdds(cache0, cache)
    && |tree| == |tree0| + Missing(cache0, path, n)
    && (Missing(cache0, path, n) == 0 ==> tree == tree0)
    && (forall k :: 1 <= k <= n ==> FolderKey(path[..k]) in cache)
    && (forall k :: n < k <= |path| ==> (FolderKey(path[..k]) in cache <==> FolderKey(path[..k]) in cache0))
    && (if n == 0 then parent.None?
        else parent.Some? && FolderKey(path[..n]) in cache && cache[FolderKey(path[..n])] == parent.value)
  }

  lemma ReachedCached(
    tree0: Tree, cache0: Cache, tree: Tree, cache: Cache, path: Path, n: nat, parent: Option<Id>)
    requires n < |path| && Reached(tree0, cache0, tree, cache, path, n, parent)
    requires FolderKey(path[..n + 1]) in cache
    ensures Reached(tree0, cache0, tree, cache, path, n + 1, Some(cache[FolderKey(path[..n + 1])]))
  {
    hide FolderKey;
  }

  lemma ReachedCreated(
    tree0: Tree, cache0: Cache, tree: Tree, cache: Cache, path: Path, n: nat, parent: Option<Id>, id: Id)
    requires n < |path| && Reached(tree0, cache0, tree, cache, path, n, parent)
    requires FolderKey(path[..n + 1]) !in cache && id !in tree
    ensures Reached(tree0, cache0, tree[id := Node(path[n], parent)], cache[FolderKey(path[..n + 1]) := id],
                    path, n + 1, Some(id))
  {
    hide FolderKey;
    var key := FolderKey(path[..n + 1]);
    assert key !in cache0;
    assert Missing(cache0, path, n + 1) == Missing(cache0, path, n) + 1;
    forall k | n + 1 < k <= |path| ensures FolderKey(path[..k]) != key {
      LongerPrefixLongerKey(path, n + 1, k);
    }
  }

  /** What a resolved path leads to. */
  ghost predicate Resolved(tree0: Tree, cache0: Cache, tree: Tree, cache: Cache, path: Path, id: Id)
    requires path != []
  {
    && AtPath(tree, id, PathOf(FolderKey(path)))
    && FolderKey(path) in cache && cache[FolderKey(path)] == id
    && |tree| == |tree0| + Missing(cache0, path, |path|)
    && Missing(cache, path, |path|) == 0
  }

  /** A folder sits at one path only. */
  lemma {:induction false} OnePath(tree: Tree, id: Id, p: Path, q: Path)
    requires AtPath(tree, id, p) && AtPath(tree, id, q)
    ensures p == q
    decreases |p|
  {
    if |p| > 1 {
      OnePath(tree, tree[id].parent.value, p[..|p| - 1], q[..|q| - 1]);
      assert p == p[..|p| - 1] + [p[|p| - 1]] && q == q[..|q| - 1] + [q[|q| - 1]];
    }
  }

  /** A resolved folder sits at the path asked for exactly if no segment contains a NUL. */
  lemma ResolvedExactly(tree0: Tree, cache0: Cache, tree: Tree, cache: Cache, path: Path, id: Id)
    requires path != [] && Resolved(tree0, cache0, tree, cache, path, id)
    ensures AtPath(tree, id, path) <==> IsNulFree(path)
  {
    PathOfKeyExactly(path);
    if AtPath(tree, id, path) {
      OnePath(tree, id, path, PathOf(FolderKey(path)));
    }
  }

  lemma NulSegmentKeys()
    ensures PathOf("a") == ["a"] && PathOf("a\0b") == ["a", "b"]
    ensures FolderKey(["a"]) == "a" && FolderKey(["a\0b"]) == "a\0b"
  {
    PathOfSegment("a");
    PathOfAppend("a", "b");
    hide PathOf;
    assert "a\0b" == "a" + [NUL] + "b";
  }

  /** One segment "a NUL b" is taken for the cached path a, b: the answer is folder b in a. */
  lemma NulSegmentMisleads()
    ensures
      var tree: Tree := map[1 := Node("a", None), 2 := Node("b", Some(1))];
      var cache: Cache := map["a" := 1, "a\0b" := 2];
      IsSound(tree, cache) && Resolved(tree, cache, tree, cache, ["a\0b"], 2) && !AtPath(tree, 2, ["a\0b"])
  {
    hide PathOf, FolderKey;
    var tree: Tree := map[1 := Node("a", None), 2 := Node("b", Some(1))];
    var cache: Cache := map["a" := 1, "a\0b" := 2];
    NulSegmentKeys();
    assert ["a", "b"][..1] == ["a"];
    assert AtPath(tree, 1, ["a"]);
    assert AtPath(tree, 2, ["a", "b"]);
    assert !AtPath(tree, 2, ["a\0b"]);
    hide AtPath;
    assert LeadsRight(tree, cache);
    assert IsPrefixClosed(cache);
    assert ["a\0b"][..1] == ["a\0b"];
    assert Missing(cache, ["a\0b"], 1) == 0;
  }

  lemma {:induction false} NoneMissing(cache: Cache, path: Path, n: nat)
    requires n <= |path| && forall k :: 1 <= k <= n ==> FolderKey(path[..k]) in cache
    ensures Missing(cache, path, n) == 0
  {
    if n > 0 {
      NoneMissing(cache, path, n - 1);
    }
  }

  lemma ReachedTheEnd(tree0: Tree, cache0: Cache, tree: Tree, cache: Cache, path: Path, parent: Option<Id>)
    requires path != [] && LeadsRight(tree, cache) && Reached(tree0, cache0, tree, cache, path, |path|, parent)
    ensures parent.Some? && Resolved(tree0, cache0, tree, cache, path, parent.value)
  {
    hide FolderKey, AtPath;
    assert path[..|path|] == path;
    NoneMissing(cache, path, |path|);
  }

  /** Parents are there. */
  predicate IsClosed(tree: Tree) {
    forall id :: id in tree && tree[id].parent.Some? ==> tree[id].parent.value in tree
  }

  /** Of two folders at one path, both were there before. */
  ghost predicate AddsNoTwin(before: Tree, after: Tree) {
    forall a, b, path :: AtPath(after, a, path) && AtPath(after, b, path) && a != b ==> a in before && b in before
  }

  lemma {:induction false} OthersStay(tree: Tree, id: Id, node: Node, other: Id, path: Path)
    requires IsClosed(tree) && id !in tree && other != id && AtPath(tree[id := node], other, path)
    ensures AtPath(tree, other, path)
    decreases |path|
  {
    if |path| > 1 {
      OthersStay(tree, id, node, tree[other].parent.value, path[..|path| - 1]);
    }
  }

  /** A folder created under a key that was not cached is the only one at its path. */
  lemma CreatedIsNew(tree0: Tree, tree: Tree, cache: Cache, key: string, id: Id, node: Node)
    requires IsClosed(tree) && id !in tree && key !in cache && Extends(tree0, tree)
    requires MissesNone(tree, cache) && AddsNoTwin(tree0, tree)
    requires AtPath(tree[id := node], id, PathOf(key))
    ensures MissesNone(tree[id := node], cache[key := id]) && AddsNoTwin(tree0, tree[id := node])
  {
    hide PathOf, FolderKey, Extends;
    var after := tree[id := node];
    forall other, path | AtPath(after, other, path)
      ensures if other == id then path == PathOf(key) else AtPath(tree, other, path)
    {
      if other == id {
        OnePath(after, id, path, PathOf(key));
      } else {
        OthersStay(tree, id, node, other, path);
      }
    }
    KeyOfPath(key);
    hide AtPath;
  }

  /** After each step, successful or not, the cache leads right and is prefix-closed, and if it
    missed no folder it still does not, and no folder is created beside one at its path. A
    result sits at the path its key spells, which is the path asked for exactly if that
    is NUL-free. One folder is created for each missing prefix and none for a cached one,
    and no prefix is missing afterwards. It fails exactly if the request for some missing
    prefix is refused; the folders created before that stay, and are cached. */
  method ResolveFolderID(remote: Remote, cache: CacheBox, path: Path) returns (r: Result<Option<Id>, ()>)
    requires remote.Valid() && IsSound(remote.tree, cache.ids)
    modifies remote, cache
    ensures remote.Valid() && IsSound(remote.tree, cache.ids)
    ensures Extends(old(remote.tree), remote.tree) && OnlyAdds(old(cache.ids), cache.ids)
    ensures path == [] ==> r == Ok(None) && remote.tree == old(remote.tree) && cache.ids == old(cache.ids)
    ensures r.Ok? && path != [] ==>
      && r.value.Some?
      && Resolved(old(remote.tree), old(cache.ids), remote.tree, cache.ids, path, r.value.value)
    ensures r.Ok? <==> forall i :: 0 <= i < |path| ==> IsGranted(old(remote.answers), old(cache.ids), path, i)
    ensures r.Err? ==> exists n: nat ::
      && IsRefusedAt(old(remote.answers), old(cache.ids), path, n)
      && IsLeft(old(remote.tree), old(cache.ids), remote.tree, cache.ids, path, n)
    ensures Missing(old(cache.ids), path, |path|) == 0 ==> r.Ok? && remote.tree == old(remote.tree)
    ensures MissesNone(old(remote.tree), old(cache.ids)) ==>
      MissesNone(remote.tree, cache.ids) && AddsNoTwin(old(remote.tree), remote.tree)
  {
    hide IsSound, IsResolving, Extends, OnlyAdds, FolderKey, Missing, Resolved, MissesNone, AddsNoTwin, IsLeft;
    ghost var tree0, cache0, answers0 := remote.tree, cache.ids, remote.answers;
    ResolvingStarts(tree0, cache0, path);
    ResolvingKeeps(tree0, cache0, tree0, cache0, path, 0, None);
    if path == [] {
      return Ok(None);
    }
    var parent: Option<Id> := None;
    for i := 0 to |path|
      invariant remote.Valid() && IsResolving(tree0, cache0, remote.tree, cache.ids, path, i, parent)
      invariant remote.answers == Rest(answers0, Missing(cache0, path, i))
      invariant forall k :: 0 <= k < i ==> IsGranted(answers0, cache0, path, k)
    {
      var key := FolderKey(path[..i + 1]);
      ResolvingNext(tree0, cache0, remote.tree, cache.ids, path, i, parent);
      if key in cache.ids {
        ResolvingCached(tree0, cache0, remote.tree, cache.ids, path, i, parent);
        parent := Some(cache.ids[key]);
      } else {
        ghost var before := remote.tree;
        ResolvingKeeps(tree0, cache0, before, cache.ids, path, i, parent);
        var created := remote.CreateFolder(path[i], parent);
        if created.None? {
          assert IsRefusedAt(answers0, cache0, path, i);
          return Err(());
        }
        ResolvingCreated(tree0, cache0, before, cache.ids, path, i, parent, created.value);
        cache.ids := cache.ids[key := created.value];
        parent := created;
      }
    }
    ResolvingKeeps(tree0, cache0, remote.tree, cache.ids, path, |path|, parent);
    r := Ok(parent);
  }

  /** Where the loop stands after n segments. */
  ghost predicate IsResolving(
    tree0: Tree, cache0: Cache, tree: Tree, cache: Cache, path: Path, n: nat, parent: Option<Id>)
    requires n <= |path|
  {
    && IsSound(tree, cache) && IsClosed(tree) && Reached(tree0, cache0, tree, cache, path, n, parent)
    && (MissesNone(tree0, cache0) ==> MissesNone(tree, cache) && AddsNoTwin(tree0, tree))
  }

  lemma ResolvingStarts(tree: Tree, cache: Cache, path: Path)
    requires IsSound(tree, cache) && IsClosed(tree)
    ensures IsResolving(tree, cache, tree, cache, path, 0, None) && Missing(cache, path, 0) == 0
  {
    assert AddsNoTwin(tree, tree);
    hide IsSound, Reached, MissesNone, AddsNoTwin;
  }

  /** The next prefix is missing now exactly if it was at the start. */
  lemma ResolvingNext(
    tree0: Tree, cache0: Cache, tree: Tree, cache: Cache, path: Path, n: nat, parent: Option<Id>)
    requires n < |path| && IsResolving(tree0, cache0, tree, cache, path, n, parent)
    ensures parent.Some? ==> parent.value in tree
    ensures FolderKey(path[..n + 1]) in cache <==> FolderKey(path[..n + 1]) in cache0
    ensures
      Missing(cache0, path, n + 1) == Missing(cache0, path, n) + if FolderKey(path[..n + 1]) in cache then 0 else 1
    ensures FolderKey(path[..n + 1]) !in cache ==> IsLeft(tree0, cache0, tree, cache, path, n)
  {
    hide MissesNone, AddsNoTwin, FolderKey, Extends, OnlyAdds, PathOf, IsPrefixClosed;
    NoneMissing(cache, path, n);
  }

  lemma ResolvingCached(
    tree0: Tree, cache0: Cache, tree: Tree, cache: Cache, path: Path, n: nat, parent: Option<Id>)
    requires n < |path| && IsResolving(tree0, cache0, tree, cache, path, n, parent)
    requires FolderKey(path[..n + 1]) in cache
    ensures IsResolving(tree0, cache0, tree, cache, path, n + 1, Some(cache[FolderKey(path[..n + 1])]))
  {
    hide IsSound, Reached, MissesNone, AddsNoTwin, FolderKey;
    ReachedCached(tree0, cache0, tree, cache, path, n, parent);
  }

  lemma ResolvingCreated(
    tree0: Tree, cache0: Cache, tree: Tree, cache: Cache, path: Path, n: nat, parent: Option<Id>, id: Id)
    requires n < |path| && IsResolving(tree0, cache0, tree, cache, path, n, parent)
    requires FolderKey(path[..n + 1]) !in cache && id !in tree && NUL !in path[n]
    requires parent.Some? ==> parent.value in tree
    ensures IsResolving(tree0, cache0, tree[id := Node(path[n], parent)], cache[FolderKey(path[..n + 1]) := id],
                        path, n + 1, Some(id))
  {
    hide IsSound, Reached, MissesNone, AddsNoTwin, FolderKey, PathOf, AtPath, Extends;
    var key, after := FolderKey(path[..n + 1]), tree[id := Node(path[n], parent)];
    ReachedCreated(tree0, cache0, tree, cache, path, n, parent, id);
    CreatedIsSound(tree0, cache0, tree, cache, path, n, parent, id);
    if MissesNone(tree0, cache0) {
      ReachedExtends(tree0, cache0, tree, cache, path, n, parent);
      CachedLeadsRight(after, cache[key := id], key);
      CreatedIsNew(tree0, tree, cache, key, id, Node(path[n], parent));
    }
  }

  /** What the caller sees whenever the loop is left. */
  lemma ResolvingKeeps(
    tree0: Tree, cache0: Cache, tree: Tree, cache: Cache, path: Path, n: nat, parent: Option<Id>)
    requires n <= |path| && IsResolving(tree0, cache0, tree, cache, path, n, parent)
    ensures IsSound(tree, cache) && Extends(tree0, tree) && OnlyAdds(cache0, cache)
    ensures MissesNone(tree0, cache0) ==> MissesNone(tree, cache) && AddsNoTwin(tree0, tree)
    ensures n < |path| && FolderKey(path[..n + 1]) !in cache ==> Missing(cache0, path, |path|) > 0
    ensures n == |path| && Missing(cache0, path, n) == 0 ==> tree == tree0
    ensures n == |path| && path != [] ==> parent.Some? && Resolved(tree0, cache0, tree, cache, path, parent.value)
  {
    hide MissesNone, AddsNoTwin, FolderKey, Missing, Resolved, Extends, OnlyAdds, Reached, LeadsRight, IsPrefixClosed;
    ReachedExtends(tree0, cache0, tree, cache, path, n, parent);
    if n == |path| {
      if path != [] {
        ReachedTheEnd(tree0, cache0, tree, cache, path, parent);
      }
    } else if FolderKey(path[..n + 1]) !in cache {
      ReachedMissing(tree0, cache0, tree, cache, path, n, parent);
    }
  }

  lemma CachedLeadsRight(tree: Tree, cache: Cache, key: string)
    requires IsSound(tree, cache) && key in cache
    ensures AtPath(tree, cache[key], PathOf(key))
  {
    hide AtPath, PathOf;
  }

  lemma ReachedExtends(
    tree0: Tree, cache0: Cache, tree: Tree, cache: Cache, path: Path, n: nat, parent: Option<Id>)
    requires n <= |path| && Reached(tree0, cache0, tree, cache, path, n, parent)
    ensures Extends(tree0, tree) && OnlyAdds(cache0, cache)
    ensures n == |path| && Missing(cache0, path, n) == 0 ==> tree == tree0
  {
  }

  /** A prefix found missing was missing at the start. */
  lemma ReachedMissing(
    tree0: Tree, cache0: Cache, tree: Tree, cache: Cache, path: Path, n: nat, parent: Option<Id>)
    requires n < |path| && Reached(tree0, cache0, tree, cache, path, n, parent)
    requires FolderKey(path[..n + 1]) !in cache
    ensures Extends(tree0, tree) && OnlyAdds(cache0, cache) && Missing(cache0, path, |path|) > 0
  {
    MissingIsMonotone(cache0, path, n + 1, |path|);
  }

  lemma {:induction false} MissingIsMonotone(cache: Cache, path: Path, m: nat, n: nat)
    requires m <= n <= |path|
    ensures Missing(cache, path, m) <= Missing(cache, path, n)
  {
    if m < n {
      MissingIsMonotone(cache, path, m, n - 1);
    }
  }

  /** The key of the next prefix spells the path of the last one and the next segment. */
  lemma NextPath(
    tree0: Tree, cache0: Cache, tree: Tree, cache: Cache, path: Path, n: nat, parent: Option<Id>) returns (front: Path)
    requires n < |path| && Reached(tree0, cache0, tree, cache, path, n, parent)
    requires LeadsRight(tree, cache) && NUL !in path[n]
    ensures PathOf(FolderKey(path[..n + 1])) == front + [path[n]]
    ensures if parent.None? then front == [] else AtPath(tree, parent.value, front) && FolderKey(front) in cache
  {
    hide AtPath;
    KeyOfPrefix(path, n + 1);
    if n == 0 {
      front := [];
    } else {
      front := PathOf(FolderKey(path[..n]));
      KeyOfPath(FolderKey(path[..n]));
    }
  }

  lemma LeadsRightMore(tree: Tree, cache: Cache, key: string, id: Id)
    requires LeadsRight(tree, cache) && AtPath(tree, id, PathOf(key))
    ensures LeadsRight(tree, cache[key := id])
  {
    hide AtPath, PathOf;
  }

  lemma PrefixClosedMore(cache: Cache, key: string, id: Id)
    requires IsPrefixClosed(cache)
    requires |PathOf(key)| > 1 ==> FolderKey(PathOf(key)[..|PathOf(key)| - 1]) in cache
    ensures IsPrefixClosed(cache[key := id])
  {
    hide PathOf, FolderKey;
  }

  lemma CreatedIsSound(
    tree0: Tree, cache0: Cache, tree: Tree, cache: Cache, path: Path, n: nat, parent: Option<Id>, id: Id)
    requires n < |path| && Reached(tree0, cache0, tree, cache, path, n, parent)
    requires IsSound(tree, cache) && id !in tree && NUL !in path[n]
    ensures IsSound(tree[id := Node(path[n], parent)], cache[FolderKey(path[..n + 1]) := id])
  {
    hide PathOf, FolderKey, AtPath, Reached, LeadsRight, IsPrefixClosed;
    var key, after := FolderKey(path[..n + 1]), tree[id := Node(path[n], parent)];
    var front := NextPath(tree0, cache0, tree, cache, path, n, parent);
    LeadsRightExtends(tree, after, cache);
    if parent.Some? {
      AtPathExtends(tree, after, parent.value, front);
    }
    ChildAtPath(after, id, parent, front, path[n]);
    hide Extends;
    assert (front + [path[n]])[..|front|] == front;
    LeadsRightMore(after, cache, key, id);
    PrefixClosedMore(cache, key, id);
  }
}
