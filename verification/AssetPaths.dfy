/** Asset paths, and the folder rename of the asset server as a function on mappings
    (AssetServer.cpp, AssetUtils.h). */
module AssetPaths {

  type Path = string
  type Hash = string
  type Mappings = map<Path, Hash>

  const HIDDEN_BAKED_CONTENT_FOLDER: string := "/.baked/"
  const SHA256_HASH_HEX_LENGTH: nat := 64

  predicate IsFolder(path: Path) { path != "" && path[|path| - 1] == '/' }

  predicate IsSpace(c: char) { c == ' ' || '\t' <= c <= '\r' }

  // QString::trimmed, on ASCII white space
  function Trimmed(s: string): string {
    if s != "" && IsSpace(s[0]) then Trimmed(s[1..])
    else if s != "" && IsSpace(s[|s| - 1]) then Trimmed(s[..|s| - 1])
    else s
  }

  function BakedFolder(hash: Hash): Path { HIDDEN_BAKED_CONTENT_FOLDER + hash + "/" }

  // what cleanupBakedFilesForDeletedAssets takes for the hash in a baked path: QString::mid
  function BakedHash(path: Path): (hash: Hash)
    requires HIDDEN_BAKED_CONTENT_FOLDER <= path
    ensures HIDDEN_BAKED_CONTENT_FOLDER + hash <= path && |hash| <= 64
    ensures |hash| < 64 ==> path == HIDDEN_BAKED_CONTENT_FOLDER + hash
  {
    var rest := path[|HIDDEN_BAKED_CONTENT_FOLDER|..];
    if |rest| <= SHA256_HASH_HEX_LENGTH then rest else rest[..SHA256_HASH_HEX_LENGTH]
  }

  lemma BakedFolderFacts(hash: Hash)
    ensures IsFolder(BakedFolder(hash)) && Trimmed(BakedFolder(hash)) == BakedFolder(hash)
    ensures BakedFolder(hash) == "/.baked/" + hash + "/"
    ensures forall p :: BakedFolder(hash) <= p && |hash| == 64 ==>
      HIDDEN_BAKED_CONTENT_FOLDER <= p && BakedHash(p) == hash
  {
  }

  // ---------- the repository's own notion of a valid file path ----------

  // How many characters a [^\/\0]+ at the start of s takes.
  function SegmentLength(s: string): (n: nat)
    ensures n <= |s|
  {
    if s == "" || s[0] == '/' || s[0] == '\0' then 0 else 1 + SegmentLength(s[1..])
  }

  /** ASSET_FILE_PATH_REGEX_STRING: one or more segments, each a slash and then something without slashes. */
  predicate MatchesFilePathRegex(path: Path)
    decreases |path|
  {
    path != "" && path[0] == '/' &&
    var n := SegmentLength(path[1..]);
    n > 0 && (1 + n == |path| || MatchesFilePathRegex(path[1 + n..]))
  }

  lemma {:induction false} SegmentEnds(s: string)
    ensures SegmentLength(s) < |s| ==> s[SegmentLength(s)] == '/' || s[SegmentLength(s)] == '\0'
    ensures forall i :: 0 <= i < SegmentLength(s) ==> s[i] != '/' && s[i] != '\0'
  {
    if s != "" && s[0] != '/' && s[0] != '\0' {
      SegmentEnds(s[1..]);
      assert forall i :: 0 < i < SegmentLength(s) ==> s[i] == s[1..][i - 1];
    }
  }

  /** A valid file path starts with a slash, does not end in one, has no two in a row, and no null character. */
  lemma {:induction false} ValidFilePathIff(path: Path)
    ensures MatchesFilePathRegex(path) <==>
      && path != "" && path[0] == '/' && path[|path| - 1] != '/'
      && (forall i :: 0 < i < |path| ==> path[i - 1] != '/' || path[i] != '/')
      && (forall i :: 0 <= i < |path| ==> path[i] != '\0')
    decreases |path|
  {
    if path != "" && path[0] == '/' {
      var rest := path[1..];
      var n := SegmentLength(rest);
      SegmentEnds(rest);
      assert forall i :: 0 < i < |path| ==> path[i] == rest[i - 1];
      var next := path[1 + n..];
      assert forall i :: 0 <= i < |next| ==> next[i] == path[1 + n + i];
      if 0 < n && next != "" {
        ValidFilePathIff(next);
        NextSegment(path, n);
      }
    }
  }

  // The conditions on a path are those on what follows its first segment.
  lemma NextSegment(path: Path, n: nat)
    requires 0 < n && 1 + n < |path| && path[0] == '/'
    requires forall i :: 1 <= i < 1 + n ==> path[i] != '/' && path[i] != '\0'
    ensures var next := path[1 + n..];
      && ((forall i :: 0 < i < |path| ==> path[i - 1] != '/' || path[i] != '/') <==>
          forall i :: 0 < i < |next| ==> next[i - 1] != '/' || next[i] != '/')
      && ((forall i :: 0 <= i < |path| ==> path[i] != '\0') <==> forall i :: 0 <= i < |next| ==> next[i] != '\0')
  {
  }

  /** No folder path is a valid file path. */
  lemma ValidFilePathIsNoFolder(path: Path)
    requires MatchesFilePathRegex(path)
    ensures !IsFolder(path)
  {
    ValidFilePathIff(path);
  }

  // ---------- renaming a folder ----------

  // The prefix oldPath becomes newPath.
  function Moved(key: Path, oldPath: Path, newPath: Path): Path
    requires oldPath <= key
  {
    newPath + key[|oldPath|..]
  }

  // One turn of the loop: it reads the copied mappings m and changes the current ones.
  function MoveOne(m: Mappings, cur: Mappings, key: Path, oldPath: Path, newPath: Path): Mappings
    requires key in m
  {
    if oldPath <= key then (cur - {key})[Moved(key, oldPath, newPath) := m[key]] else cur
  }

  function MoveAll(m: Mappings, order: seq<Path>, oldPath: Path, newPath: Path): Mappings
    requires forall k :: k in order ==> k in m
  {
    if order == [] then m
    else MoveOne(m, MoveAll(m, order[..|order| - 1], oldPath, newPath), order[|order| - 1], oldPath, newPath)
  }

  ghost predicate IsOrderOf(order: seq<Path>, keys: set<Path>) {
    (forall k :: k in order <==> k in keys) && forall i, j :: 0 <= i < j < |order| ==> order[i] != order[j]
  }

  // The key that is moved to q, if there is one.
  function Source(q: Path, oldPath: Path, newPath: Path): Path
    requires newPath <= q
  {
    oldPath + q[|newPath|..]
  }

  predicate IsTarget(m: Mappings, q: Path, oldPath: Path, newPath: Path) {
    newPath <= q && Source(q, oldPath, newPath) in m
  }

  /** What renaming a folder means: every key under oldPath is moved by prefix replacement,
      overwriting what is at its destination, and everything else is unchanged. */
  ghost predicate IsRenamed(m: Mappings, r: Mappings, oldPath: Path, newPath: Path) {
    forall q ::
      if IsTarget(m, q, oldPath, newPath) then q in r && r[q] == m[Source(q, oldPath, newPath)]
      else if oldPath <= q then q !in r
      else (q in r <==> q in m) && (q in r ==> r[q] == m[q])
  }

  /** The rename has exactly one result. */
  lemma RenamedIsUnique(m: Mappings, r: Mappings, s: Mappings, oldPath: Path, newPath: Path)
    requires IsRenamed(m, r, oldPath, newPath) && IsRenamed(m, s, oldPath, newPath)
    ensures r == s
  {
  }

  /** In terms of what follows the prefix: what was at oldPath + rest is at newPath + rest, and everything in the
      result came from there or was outside oldPath before. */
  lemma RenamedMoves(m: Mappings, r: Mappings, oldPath: Path, newPath: Path)
    requires IsRenamed(m, r, oldPath, newPath)
    ensures forall rest :: oldPath + rest in m ==> newPath + rest in r && r[newPath + rest] == m[oldPath + rest]
    ensures forall q :: q in r ==>
      (newPath <= q && oldPath + q[|newPath|..] in m && r[q] == m[oldPath + q[|newPath|..]]) ||
      (!(oldPath <= q) && q in m && r[q] == m[q])
    ensures forall q :: q in m && !(oldPath <= q) ==> q in r
  {
  }

  // a occurs before b
  predicate Before(order: seq<Path>, a: Path, b: Path) {
    exists i, j :: 0 <= i < j < |order| && order[i] == a && order[j] == b
  }

  // The loop moved another key to q, and erased q afterwards because q itself was to be moved.
  predicate Clobbered(m: Mappings, order: seq<Path>, q: Path, oldPath: Path, newPath: Path) {
    IsTarget(m, q, oldPath, newPath) && oldPath <= q && Before(order, Source(q, oldPath, newPath), q)
  }

  lemma BeforeLast(order: seq<Path>, a: Path, b: Path)
    requires order != []
    ensures var n := |order| - 1;
      Before(order, a, b) <==> Before(order[..n], a, b) || (b == order[n] && a in order[..n])
  {
  }

  lemma MovedInvertsSource(k: Path, q: Path, oldPath: Path, newPath: Path)
    requires oldPath <= k
    ensures Moved(k, oldPath, newPath) == q <==> newPath <= q && Source(q, oldPath, newPath) == k
  {
  }

  lemma SourceIsInFolder(q: Path, oldPath: Path, newPath: Path)
    requires newPath <= q
    ensures oldPath <= Source(q, oldPath, newPath)
  {
  }

  // What one turn of the loop means for one key.
  lemma MoveOneAt(m: Mappings, cur: Mappings, k: Path, q: Path, oldPath: Path, newPath: Path)
    requires k in m
    ensures var r := MoveOne(m, cur, k, oldPath, newPath);
      if oldPath <= k && newPath <= q && Source(q, oldPath, newPath) == k then q in r && r[q] == m[k]
      else if oldPath <= k && q == k then q !in r
      else (q in r <==> q in cur) && (q in cur ==> r[q] == cur[q])
  {
    if oldPath <= k {
      MovedInvertsSource(k, q, oldPath, newPath);
      hide Moved, Source;
    }
  }

  // The state of one key after part of the loop.
  lemma {:induction false} Track(m: Mappings, order: seq<Path>, q: Path, oldPath: Path, newPath: Path)
    requires forall k :: k in order ==> k in m
    requires forall i, j :: 0 <= i < j < |order| ==> order[i] != order[j]
    ensures var cur := MoveAll(m, order, oldPath, newPath);
      if IsTarget(m, q, oldPath, newPath) && Source(q, oldPath, newPath) in order then
        (q in cur <==> !Clobbered(m, order, q, oldPath, newPath)) &&
        (q in cur ==> cur[q] == m[Source(q, oldPath, newPath)])
      else if oldPath <= q && q in order then q !in cur
      else (q in cur <==> q in m) && (q in cur ==> cur[q] == m[q])
  {
    if order != [] {
      var n := |order| - 1;
      var k := order[n];
      Track(m, order[..n], q, oldPath, newPath);
      assert order == order[..n] + [k];
      MoveOneAt(m, MoveAll(m, order[..n], oldPath, newPath), k, q, oldPath, newPath);
      if newPath <= q {
        BeforeLast(order, Source(q, oldPath, newPath), q);
        SourceIsInFolder(q, oldPath, newPath);
      }
      hide MoveOne, Before, Source;
    }
  }

  /** The loop over the copied mappings renames the folder exactly if no key that some other key is
      moved to lies in the renamed folder itself and is visited after that other key. */
  lemma MoveAllRenamesIff(m: Mappings, order: seq<Path>, oldPath: Path, newPath: Path)
    requires IsOrderOf(order, m.Keys)
    ensures IsRenamed(m, MoveAll(m, order, oldPath, newPath), oldPath, newPath) <==>
      forall q :: q in m ==> !Clobbered(m, order, q, oldPath, newPath)
  {
    var r := MoveAll(m, order, oldPath, newPath);
    forall q
      ensures IsTarget(m, q, oldPath, newPath) ==>
        (q in r <==> !Clobbered(m, order, q, oldPath, newPath)) && (q in r ==> r[q] == m[Source(q, oldPath, newPath)])
      ensures !IsTarget(m, q, oldPath, newPath) && oldPath <= q ==> q !in r
      ensures !IsTarget(m, q, oldPath, newPath) && !(oldPath <= q) ==> (q in r <==> q in m) && (q in r ==> r[q] == m[q])
      ensures Clobbered(m, order, q, oldPath, newPath) ==> q in m
    {
      Track(m, order, q, oldPath, newPath);
    }
  }

  lemma PrefixesNest(a: Path, b: Path, q: Path)
    ensures a <= q && b <= q ==> a <= b || b <= a
  {
  }

  /** In particular for two folders neither of which contains the other, in whatever order the
      mappings are visited. */
  lemma MoveAllRenames(m: Mappings, order: seq<Path>, oldPath: Path, newPath: Path)
    requires IsOrderOf(order, m.Keys)
    requires !(oldPath <= newPath) && !(newPath <= oldPath)
    ensures IsRenamed(m, MoveAll(m, order, oldPath, newPath), oldPath, newPath)
  {
    forall q | q in m ensures !Clobbered(m, order, q, oldPath, newPath) {
      PrefixesNest(oldPath, newPath, q);
    }
    MoveAllRenamesIff(m, order, oldPath, newPath);
  }

  /** A rename into a subfolder can lose a mapping. */
  lemma MoveIntoSubfolderLoses(m: Mappings, order: seq<Path>)
    requires m == map["/a/x" := "h1", "/a/b/x" := "h2"] && order == ["/a/x", "/a/b/x"]
    ensures IsOrderOf(order, m.Keys) && !IsRenamed(m, MoveAll(m, order, "/a/", "/a/b/"), "/a/", "/a/b/")
  {
    var q: Path := "/a/b/x";
    assert q[|"/a/b/"|..] == "x" && Source(q, "/a/", "/a/b/") == "/a/x";
    assert order[0] == "/a/x" && order[1] == q;
    assert Clobbered(m, order, q, "/a/", "/a/b/");
    MoveAllRenamesIff(m, order, "/a/", "/a/b/");
  }

  /** An ordinary folder rename loses nothing: without destinations to overwrite, as many mappings
      come out as went in, and moving back restores them. */
  lemma RenameRoundTrip(m: Mappings, r: Mappings, s: Mappings, oldPath: Path, newPath: Path)
    requires IsRenamed(m, r, oldPath, newPath) && IsRenamed(r, s, newPath, oldPath)
    requires !(oldPath <= newPath) && !(newPath <= oldPath)
    requires forall p :: p in m ==> !(newPath <= p)
    ensures s == m
  {
    forall q ensures (q in s <==> q in m) && (q in m ==> s[q] == m[q]) {
      if oldPath <= q {
        var p := Moved(q, oldPath, newPath);
        assert p[|newPath|..] == q[|oldPath|..] && q == oldPath + q[|oldPath|..];
        assert Source(p, oldPath, newPath) == q && Source(q, newPath, oldPath) == p;
        PrefixesNest(oldPath, newPath, p);
        assert q in m <==> p in r;
      }
    }
  }

  // ---------- renaming a file ----------

  function FileRenamed(m: Mappings, oldPath: Path, newPath: Path): Mappings
    requires oldPath in m
  {
    (m - {oldPath})[newPath := m[oldPath]]
  }

  /** The asset is at its new path only, in place of what was there, and all other paths are as they were. Renaming
      it back restores the mappings exactly if nothing was overwritten. */
  lemma FileRenameMoves(m: Mappings, oldPath: Path, newPath: Path)
    requires oldPath in m
    ensures var r := FileRenamed(m, oldPath, newPath);
      && newPath in r && r[newPath] == m[oldPath]
      && (oldPath in r ==> oldPath == newPath)
      && (forall q :: q != oldPath && q != newPath ==> (q in r <==> q in m) && (q in r ==> r[q] == m[q]))
      && (FileRenamed(r, newPath, oldPath) == m <==> oldPath == newPath || newPath !in m)
  {
  }

  /** What the rollback of a file rename leaves in memory. It puts the source back, and then reads
      the overwritten destination through an iterator to the slot it has itself overwritten; with
      equal paths the slot did not exist when the iterator was taken, and the mapping is erased. */
  function FileRolledBack(m: Mappings, oldPath: Path, newPath: Path): Mappings
    requires oldPath in m
  {
    if newPath == oldPath then m - {oldPath}
    else if newPath in m then m[newPath := m[oldPath]]
    else m
  }

  /** The rollback restores the mappings exactly if the paths differ and the destination was
      unmapped, or mapped to the same asset. */
  lemma RollbackRestoresIff(m: Mappings, oldPath: Path, newPath: Path)
    requires oldPath in m
    ensures FileRolledBack(m, oldPath, newPath) == m <==>
      oldPath != newPath && (newPath in m ==> m[newPath] == m[oldPath])
  {
  }

  /** A failing rename onto another asset's path leaves that path with the renamed asset's hash. */
  lemma RollbackLosesDestination(m: Mappings)
    requires m == map["/a" := "h1", "/b" := "h2"]
    ensures FileRolledBack(m, "/a", "/b") == map["/a" := "h1", "/b" := "h1"] != m
  {
    assert FileRolledBack(m, "/a", "/b")["/b"] == "h1";
  }

  // ---------- deleting ----------

  predicate Deletes(rawPath: Path, p: Path) {
    var path := Trimmed(rawPath);
    if IsFolder(path) then path <= p else p == path
  }

  predicate AnyDeletes(paths: seq<Path>, p: Path) {
    exists i :: 0 <= i < |paths| && Deletes(paths[i], p)
  }

  predicate AllSpaces(s: string) {
    forall i :: 0 <= i < |s| ==> s[i] == ' ' || '\t' <= s[i] <= '\r'
  }

  /** Trimming takes the white space around what is neither empty nor has any at its ends, and no more. */
  lemma {:induction false} TrimmedIs(before: string, path: Path, after: string)
    requires AllSpaces(before) && AllSpaces(after)
    requires path != "" && !IsSpace(path[0]) && !IsSpace(path[|path| - 1])
    ensures Trimmed(before + path + after) == path
    decreases |before| + |after|
  {
    var s := before + path + after;
    if before != "" {
      assert s[0] == before[0] && s[1..] == before[1..] + path + after;
      TrimmedIs(before[1..], path, after);
    } else if after != "" {
      var n := |after| - 1;
      assert s[0] == path[0] && s[|s| - 1] == after[n] && s[..|s| - 1] == before + path + after[..n];
      TrimmedIs(before, path, after[..n]);
    } else {
      assert s == path;
    }
  }

  /** A deleted path takes, once trimmed, all mappings under it if it ends in a slash. Otherwise it takes its own
      mapping only. */
  lemma DeletingIs(m: Mappings, before: string, path: Path, after: string)
    requires AllSpaces(before) && AllSpaces(after)
    requires path != "" && !IsSpace(path[0]) && !IsSpace(path[|path| - 1])
    ensures Without(m, [before + path + after]) ==
      if path[|path| - 1] == '/' then map q | q in m && !(path <= q) :: m[q] else m - {path}
  {
    TrimmedIs(before, path, after);
    var raw := before + path + after;
    forall q ensures AnyDeletes([raw], q) <==> if path[|path| - 1] == '/' then path <= q else q == path {
      AnyDeletesOne(raw, q);
    }
  }

  lemma AnyDeletesOne(rawPath: Path, p: Path)
    ensures AnyDeletes([rawPath], p) <==> Deletes(rawPath, p)
  {
    assert [rawPath][0] == rawPath;
  }

  function Without(m: Mappings, paths: seq<Path>): Mappings {
    map p | p in m && !AnyDeletes(paths, p) :: m[p]
  }

  lemma WithoutAppend(m: Mappings, paths: seq<Path>, rawPath: Path)
    ensures Without(m, paths + [rawPath]) == Without(Without(m, paths), [rawPath])
  {
    forall p ensures AnyDeletes(paths + [rawPath], p) <==> AnyDeletes(paths, p) || AnyDeletes([rawPath], p) {
      assert [rawPath][0] == rawPath && (paths + [rawPath])[|paths|] == rawPath;
      assert forall i :: 0 <= i < |paths| ==> (paths + [rawPath])[i] == paths[i];
    }
  }

  // The hashes of the mappings of m that n lacks.
  function Lost(m: Mappings, n: Mappings): set<Hash> {
    set p | p in m && p !in n :: m[p]
  }

  lemma LostAgain(m: Mappings, n: Mappings, r: Mappings)
    requires IsSubmap(n, m) && IsSubmap(r, n)
    ensures Lost(m, r) == Lost(m, n) + Lost(n, r)
  {
  }

  ghost predicate IsSubmap(a: Mappings, b: Mappings) {
    forall p :: p in a ==> p in b && a[p] == b[p]
  }

  /** Baked content is orphaned if the asset it was baked from is mapped nowhere. */
  ghost predicate Orphaned(m: Mappings, hash: Hash) {
    hash !in m.Values && exists p :: p in m && BakedFolder(hash) <= p
  }

  ghost predicate HasFiles(m: Mappings, files: set<Hash>) { m.Values <= files }
}
