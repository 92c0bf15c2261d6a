/** The asset server's mapping store: mappings in memory, their persisted copy, and the asset files,
    under any pattern of failing writes and removals (AssetServer.cpp). */
module AssetServerModel {
  import opened AssetPaths

  class AssetServer {
    const isValidFilePath: Path -> bool
    const isValidHash: Hash -> bool
    var fileMappings: Mappings
    var mapFile: Mappings       // what map.json holds: QSaveFile commits all of it or nothing
    var files: set<Hash>        // the files in the files directory, named by their hashes
    ghost var faults: nat       // how many writes, and removals of existing files, have failed

    /** All stored hashes are valid, and a valid hash is not empty. */
    ghost predicate Valid()
      reads this
    {
      (forall h :: isValidHash(h) ==> h != "") &&
      forall p :: p in fileMappings ==> isValidHash(fileMappings[p])
    }

    ghost predicate Persisted()
      reads this
    {
      mapFile == fileMappings
    }

    /** No asset file with a proper name is unmapped. */
    ghost predicate NoStrayFiles()
      reads this
    {
      forall g :: g in files && isValidHash(g) ==> g in fileMappings.Values
    }

    ghost predicate NoOrphanedBakes()
      reads this
    {
      forall h: Hash :: |h| == SHA256_HASH_HEX_LENGTH ==> !Orphaned(fileMappings, h)
    }

    constructor (isValidFilePath: Path -> bool, isValidHash: Hash -> bool, loaded: Mappings, files: set<Hash>)
      requires forall h :: isValidHash(h) ==> h != ""
      requires forall p :: p in loaded ==> isValidHash(loaded[p])
      ensures Valid() && Persisted() && fileMappings == loaded && this.files == files && faults == 0
      ensures this.isValidFilePath == isValidFilePath && this.isValidHash == isValidHash
    {
      this.isValidFilePath, this.isValidHash := isValidFilePath, isValidHash;
      fileMappings, mapFile, this.files, faults := loaded, loaded, files, 0;
    }

    method WriteMappingsToFile() returns (ok: bool)
      modifies this`mapFile, this`faults
      ensures ok ==> mapFile == fileMappings && faults == old(faults)
      ensures !ok ==> mapFile == old(mapFile) && faults == old(faults) + 1
    {
      ok := *;
      if ok {
        mapFile := fileMappings;
      } else {
        faults := faults + 1;
      }
    }

    // QFile::remove fails for a file that is not there
    method RemoveFile(hash: Hash) returns (ok: bool)
      modifies this`files, this`faults
      ensures ok ==> hash in old(files) && files == old(files) - {hash} && faults == old(faults)
      ensures !ok ==> files == old(files)
      ensures !ok && hash in old(files) ==> faults == old(faults) + 1
      ensures !ok && hash !in old(files) ==> faults == old(faults)
    {
      ok := *;
      if hash !in files {
        ok := false;
      } else if ok {
        files := files - {hash};
      } else {
        faults := faults + 1;
      }
    }

    method SetMapping(rawPath: Path, hash: Hash) returns (ok: bool)
      requires Valid() && Persisted()
      modifies this`fileMappings, this`mapFile, this`faults
      ensures Valid() && Persisted()
      ensures ok ==> fileMappings == old(fileMappings)[Trimmed(rawPath) := hash]
      ensures !ok ==> fileMappings == old(fileMappings)
      ensures !(isValidFilePath(Trimmed(rawPath)) && isValidHash(hash)) ==> !ok && faults == old(faults)
      ensures isValidFilePath(Trimmed(rawPath)) && isValidHash(hash) && faults == old(faults) ==> ok
    {
      var path := Trimmed(rawPath);
      if !isValidFilePath(path) || !isValidHash(hash) {
        return false;
      }
      var oldMapping := if path in fileMappings then fileMappings[path] else "";
      fileMappings := fileMappings[path := hash];
      ok := WriteMappingsToFile();
      if !ok {
        if oldMapping == "" {
          fileMappings := fileMappings - {path};
        } else {
          fileMappings := fileMappings[path := oldMapping];
        }
      }
    }

    // ---------- deleting ----------

    // What one path of a delete request takes out of the mappings and into the set of hashes to check.
    method RemovePath(rawPath: Path, hashes: set<Hash>) returns (moreHashes: set<Hash>)
      modifies this`fileMappings
      ensures fileMappings == Without(old(fileMappings), [rawPath])
      ensures moreHashes == hashes + Lost(old(fileMappings), fileMappings)
    {
      var path := Trimmed(rawPath);
      ghost var before := fileMappings;
      assert forall p :: AnyDeletes([rawPath], p) <==> Deletes(rawPath, p) by {
        assert [rawPath][0] == rawPath;
      }
      moreHashes := hashes;
      if IsFolder(path) {
        var todo := fileMappings.Keys;
        while todo != {}
          invariant todo <= fileMappings.Keys && IsSubmap(fileMappings, before)
          invariant forall p :: p in before ==> (p in fileMappings <==> p in todo || !(path <= p))
          invariant moreHashes == hashes + Lost(before, fileMappings)
          decreases |todo|
        {
          var p :| p in todo;
          if path <= p {
            TakeKey(before, fileMappings, p);
            moreHashes := moreHashes + {fileMappings[p]};
            fileMappings := fileMappings - {p};
          }
          todo := todo - {p};
        }
      } else if path in fileMappings {
        TakeKey(before, fileMappings, path);
        moreHashes := moreHashes + {fileMappings[path]};
        fileMappings := fileMappings - {path};
      }
    }

    static lemma TakeKey(original: Mappings, m: Mappings, p: Path)
      requires IsSubmap(m, original) && p in m
      ensures Lost(original, m - {p}) == Lost(original, m) + {m[p]}
    {
    }

    /** What a cascade started from the mappings m0 and files f0 may have done by now: mappings only
        go, nothing that is still mapped has lost its file to it, and a mapping that went was asked
        for or was baked content of a deleted file. */
    ghost predicate Cascaded(m0: Mappings, f0: set<Hash>, paths: seq<Path>)
      reads this
    {
      && IsSubmap(fileMappings, m0)
      && files <= f0
      && (forall g :: g in f0 - files ==> g in m0.Values && g !in fileMappings.Values)
      && (forall p :: p in m0 && p !in fileMappings ==>
           AnyDeletes(paths, p) || exists g :: g in f0 - files && BakedFolder(g) <= p)
    }

    // ... and, if nothing failed, how far it has got: the hashes that lost their last mapping and
    // still have a file are pending, and so are the bakes that were orphaned by it.
    ghost predicate Faultless(m0: Mappings, f0: set<Hash>, pending: set<Hash>)
      reads this
    {
      && (forall g :: g in m0.Values && g !in fileMappings.Values && g in files ==> g in pending)
      && (HasFiles(m0, f0) ==>
           && HasFiles(fileMappings, files) && pending <= files
           && forall h :: Orphaned(fileMappings, h) ==> Orphaned(m0, h) || h in pending)
    }

    /** deleteMappings. Whatever fails, it keeps memory and disk equal and never deletes a file whose
        hash is still mapped in the end; the recursion ends because a nested call only follows the
        removal of a file. If nothing fails, every hash that lost its last mapping lost its file, and
        no baked content becomes orphaned. */
    method DeleteMappings(paths: seq<Path>) returns (ok: bool)
      requires Valid() && Persisted()
      modifies this`fileMappings, this`mapFile, this`files, this`faults
      ensures Valid() && Persisted() && faults >= old(faults)
      ensures !ok ==> fileMappings == old(fileMappings) && files == old(files) && faults > old(faults)
      ensures ok ==> forall p :: p in fileMappings ==> !AnyDeletes(paths, p)
      ensures Cascaded(old(fileMappings), old(files), paths)
      ensures faults == old(faults) ==> ok && Faultless(old(fileMappings), old(files), {})
      ensures faults == old(faults) && old(HasFiles(fileMappings, files)) && old(NoOrphanedBakes()) ==>
        HasFiles(fileMappings, files) && NoOrphanedBakes()
      decreases |files|, 2
    {
      ghost var m0, f0 := fileMappings, files;
      var oldMappings := fileMappings;
      var hashesToCheckForDeletion := RemovePaths(paths);
      ok := WriteMappingsToFile();
      if ok {
        hashesToCheckForDeletion := hashesToCheckForDeletion - fileMappings.Values;
        AfterFirstDelete(m0, f0, paths, hashesToCheckForDeletion);
        DeleteUnmappedFiles(hashesToCheckForDeletion, m0, f0, paths);
      } else {
        fileMappings := oldMappings;
      }
    }

    method RemovePaths(paths: seq<Path>) returns (hashes: set<Hash>)
      modifies this`fileMappings
      ensures fileMappings == Without(old(fileMappings), paths) && hashes == Lost(old(fileMappings), fileMappings)
    {
      hashes := {};
      for i := 0 to |paths|
        invariant fileMappings == Without(old(fileMappings), paths[..i]) &&
          hashes == Lost(old(fileMappings), fileMappings)
      {
        ghost var before := fileMappings;
        assert paths[..i + 1] == paths[..i] + [paths[i]];
        WithoutAppend(old(fileMappings), paths[..i], paths[i]);
        hashes := RemovePath(paths[i], hashes);
        LostAgain(old(fileMappings), before, fileMappings);
      }
      assert paths[..|paths|] == paths;
    }

    method DeleteUnmappedFiles(hashes: set<Hash>, ghost m0: Mappings, ghost f0: set<Hash>, ghost paths: seq<Path>)
      requires Valid() && Persisted() && files == f0
      requires forall p :: p in fileMappings ==> !AnyDeletes(paths, p)
      requires Cascaded(m0, f0, paths) && hashes <= m0.Values && hashes !! fileMappings.Values
      modifies this`fileMappings, this`mapFile, this`files, this`faults
      ensures Valid() && Persisted() && faults >= old(faults)
      ensures forall p :: p in fileMappings ==> !AnyDeletes(paths, p)
      ensures Cascaded(m0, f0, paths)
      ensures faults == old(faults) && old(Faultless(m0, f0, hashes)) ==> Faultless(m0, f0, {})
      decreases |files|, 1
    {
      var hashesToDelete := hashes;
      while hashesToDelete != {}
        invariant Valid() && Persisted() && faults >= old(faults)
        invariant forall p :: p in fileMappings ==> !AnyDeletes(paths, p)
        invariant Cascaded(m0, f0, paths)
        invariant hashesToDelete <= m0.Values && hashesToDelete !! fileMappings.Values
        invariant faults == old(faults) && old(Faultless(m0, f0, hashes)) ==> Faultless(m0, f0, hashesToDelete)
        decreases |hashesToDelete|
      {
        var hash :| hash in hashesToDelete;
        NotLarger(files, f0);
        DeleteUnmapped(hash, m0, f0, paths, hashesToDelete);
        hashesToDelete := hashesToDelete - {hash};
      }
    }

    static lemma NotLarger(a: set<Hash>, b: set<Hash>)
      requires a <= b
      ensures |a| <= |b|
    {
      assert b == a + (b - a);
    }

    lemma AfterFirstDelete(m0: Mappings, f0: set<Hash>, paths: seq<Path>, pending: set<Hash>)
      requires files == f0 && fileMappings == Without(m0, paths)
      requires pending == Lost(m0, fileMappings) - fileMappings.Values
      ensures Cascaded(m0, f0, paths) && Faultless(m0, f0, pending)
      ensures pending <= m0.Values && pending !! fileMappings.Values
    {
    }

    // One turn of the deletion loop: remove the file of an unmapped hash and, if that works, the
    // baked content of the asset it held.
    method DeleteUnmapped(hash: Hash, ghost m0: Mappings, ghost f0: set<Hash>, ghost paths: seq<Path>,
        ghost pending: set<Hash>)
      requires Valid() && Persisted() && hash in pending
      requires Cascaded(m0, f0, paths) && pending <= m0.Values && pending !! fileMappings.Values
      modifies this`fileMappings, this`mapFile, this`files, this`faults
      ensures Valid() && Persisted() && faults >= old(faults)
      ensures Cascaded(m0, f0, paths) && IsSubmap(fileMappings, old(fileMappings))
      ensures (pending - {hash}) !! fileMappings.Values
      ensures faults == old(faults) && old(Faultless(m0, f0, pending)) ==> Faultless(m0, f0, pending - {hash})
      decreases |files|, 0
    {
      ghost var m1, f1 := fileMappings, files;
      var removed := RemoveFile(hash);
      if removed {
        assert files < f1;
        SmallerSet(files, f1);
        RemoveBakedPathsForDeletedAsset(hash);
        CascadeWithin(m0, f0, paths, m1, f1, hash);
        if faults == old(faults) && old(Faultless(m0, f0, pending)) {
          FaultlessWithin(m0, f0, m1, f1, hash, pending);
        }
      }
    }

    static lemma SmallerSet(a: set<Hash>, b: set<Hash>)
      requires a < b
      ensures |a| < |b|
    {
      assert b == a + (b - a);
    }

    lemma ValuesShrink(a: Mappings, b: Mappings)
      requires IsSubmap(a, b)
      ensures a.Values <= b.Values
    {
    }

    // A nested cascade, run after the file of an unmapped hash was removed, is part of the outer one.
    lemma CascadeWithin(m0: Mappings, f0: set<Hash>, paths: seq<Path>, m1: Mappings, f1: set<Hash>, hash: Hash)
      requires IsSubmap(m1, m0) && f1 <= f0 && hash in f1 && hash in m0.Values && hash !in m1.Values
      requires forall g :: g in f0 - f1 ==> g in m0.Values && g !in m1.Values
      requires forall p :: p in m0 && p !in m1 ==>
        AnyDeletes(paths, p) || exists g :: g in f0 - f1 && BakedFolder(g) <= p
      requires Cascaded(m1, f1 - {hash}, [BakedFolder(hash)])
      ensures Cascaded(m0, f0, paths)
    {
      ValuesShrink(fileMappings, m1);
      ValuesShrink(m1, m0);
      forall p | p in m0 && p !in fileMappings
        ensures AnyDeletes(paths, p) || exists g :: g in f0 - files && BakedFolder(g) <= p
      {
        if p !in m1 {
          if !AnyDeletes(paths, p) {
            var g :| g in f0 - f1 && BakedFolder(g) <= p;
            assert g in f0 - files;
          }
        } else if AnyDeletes([BakedFolder(hash)], p) {
          BakedFolderFacts(hash);
          assert hash in f0 - files && BakedFolder(hash) <= p;
        } else {
          var g :| g in (f1 - {hash}) - files && BakedFolder(g) <= p;
          assert g in f0 - files;
        }
      }
    }

    // ... and brings a fault-free one further by that hash.
    lemma FaultlessWithin(m0: Mappings, f0: set<Hash>, m1: Mappings, f1: set<Hash>, hash: Hash, pending: set<Hash>)
      requires hash in pending && pending !! m1.Values && IsSubmap(m1, m0) && IsSubmap(fileMappings, m1)
      requires forall g :: g in m0.Values && g !in m1.Values && g in f1 ==> g in pending
      requires HasFiles(m0, f0) ==>
        HasFiles(m1, f1) && pending <= f1 && forall h :: Orphaned(m1, h) ==> Orphaned(m0, h) || h in pending
      requires files <= f1 - {hash} && forall g :: g in (f1 - {hash}) - files ==> g in m1.Values
      requires Faultless(m1, f1 - {hash}, {})
      requires forall p :: p in fileMappings ==> !AnyDeletes([BakedFolder(hash)], p)
      ensures Faultless(m0, f0, pending - {hash})
    {
      ValuesShrink(fileMappings, m1);
      ValuesShrink(m1, m0);
      BakedFolderFacts(hash);
      forall p | p in fileMappings ensures !(BakedFolder(hash) <= p) {
        AnyDeletesOne(BakedFolder(hash), p);
      }
    }

    method RemoveBakedPathsForDeletedAsset(hash: Hash)
      requires Valid() && Persisted()
      modifies this`fileMappings, this`mapFile, this`files, this`faults
      ensures Valid() && Persisted() && faults >= old(faults)
      ensures Cascaded(old(fileMappings), old(files), [BakedFolder(hash)])
      ensures faults == old(faults) ==>
        && Faultless(old(fileMappings), old(files), {})
        && forall p :: p in fileMappings ==> !AnyDeletes([BakedFolder(hash)], p)
      decreases |files|, 3
    {
      var deleted := DeleteMappings([BakedFolder(hash)]);
    }

    // ---------- start-up clean-up ----------

    // The hashes in the paths of baked content.
    static function BakedHashes(m: Mappings): set<Hash> {
      set p | p in m && HIDDEN_BAKED_CONTENT_FOLDER <= p :: BakedHash(p)
    }

    /** From m0 and f0 to m and f only baked content went, of assets that no mapping points to: one in
        `bakes`, or one whose file went as well. Every other mapping is as it was, and every file that
        went has a valid hash for a name and is mapped nowhere. */
    ghost predicate OnlyBakesWent(m0: Mappings, f0: set<Hash>, bakes: set<Hash>, m: Mappings, f: set<Hash>) {
      && IsSubmap(m, m0) && f <= f0
      && (forall p :: p in m0 && p !in m ==>
           exists h :: BakedFolder(h) <= p && h !in m.Values && (h in bakes || h in f0 - f))
      && (forall g :: g in f0 - f ==> isValidHash(g) && g !in m.Values)
    }

    // One more removal of baked content; f2 are the files after the asset's own file went, if it did.
    lemma MoreBakesWent(m0: Mappings, f0: set<Hash>, bakes: set<Hash>, m1: Mappings, f1: set<Hash>, f2: set<Hash>,
        hash: Hash)
      requires OnlyBakesWent(m0, f0, bakes, m1, f1) && f2 <= f1
      requires hash !in m1.Values && (hash in bakes || hash in f1 - f2)
      requires forall g :: g in f1 - f2 ==> g == hash && isValidHash(g)
      requires forall p :: p in m1 ==> isValidHash(m1[p])
      requires Cascaded(m1, f2, [BakedFolder(hash)])
      ensures OnlyBakesWent(m0, f0, bakes, fileMappings, files)
    {
      ValuesShrink(fileMappings, m1);
      forall g | g in f2 - files ensures isValidHash(g) {
        var p :| p in m1 && m1[p] == g;
      }
      forall p | p in m0 && p !in fileMappings
        ensures exists h :: BakedFolder(h) <= p && h !in fileMappings.Values && (h in bakes || h in f0 - files)
      {
        if p in m1 {
          if AnyDeletes([BakedFolder(hash)], p) {
            BakedFolderFacts(hash);
            AnyDeletesOne(BakedFolder(hash), p);
            assert BakedFolder(hash) <= p;
          } else {
            var g :| g in f2 - files && BakedFolder(g) <= p;
            assert g !in fileMappings.Values && g in f0 - files;
          }
        } else {
          var h :| BakedFolder(h) <= p && h !in m1.Values && (h in bakes || h in f0 - f1);
          assert h !in fileMappings.Values && (h in bakes || h in f0 - files);
        }
      }
    }

    /** cleanupUnmappedFiles, over a listing of the files directory. */
    method CleanupUnmappedFiles(listing: seq<Hash>)
      requires Valid() && Persisted() && forall g :: g in files ==> g in listing
      modifies this`fileMappings, this`mapFile, this`files, this`faults
      ensures Valid() && Persisted() && faults >= old(faults)
      ensures IsSubmap(fileMappings, old(fileMappings)) && files <= old(files)
      ensures forall g :: g in old(files) - files ==> g !in fileMappings.Values
      ensures OnlyBakesWent(old(fileMappings), old(files), {}, fileMappings, files)
      ensures faults == old(faults) ==> NoStrayFiles()
      ensures faults == old(faults) && old(HasFiles(fileMappings, files)) ==> HasFiles(fileMappings, files)
    {
      for i := 0 to |listing|
        invariant Valid() && Persisted() && faults >= old(faults)
        invariant IsSubmap(fileMappings, old(fileMappings)) && files <= old(files)
        invariant OnlyBakesWent(old(fileMappings), old(files), {}, fileMappings, files)
        invariant faults == old(faults) ==>
          forall g :: g in files && isValidHash(g) && g !in fileMappings.Values ==> g in listing[i..]
        invariant faults == old(faults) && old(HasFiles(fileMappings, files)) ==> HasFiles(fileMappings, files)
      {
        ghost var m1, f1 := fileMappings, files;
        var filename := listing[i];
        assert forall g :: g in listing[i..] <==> g == filename || g in listing[i + 1..];
        if isValidHash(filename) && filename !in fileMappings.Values {
          var removed := RemoveFile(filename);
          if removed {
            RemoveBakedPathsForDeletedAsset(filename);
            ValuesShrink(fileMappings, m1);
            MoreBakesWent(old(fileMappings), old(files), {}, m1, f1, f1 - {filename}, filename);
          }
        }
      }
    }

    /** cleanupBakedFilesForDeletedAssets establishes, from any start, that no baked content is
        orphaned, if nothing fails. */
    method CleanupBakedFilesForDeletedAssets()
      requires Valid() && Persisted()
      modifies this`fileMappings, this`mapFile, this`files, this`faults
      ensures Valid() && Persisted() && faults >= old(faults)
      ensures IsSubmap(fileMappings, old(fileMappings)) && files <= old(files)
      ensures forall g :: g in old(files) - files ==> g !in fileMappings.Values
      ensures OnlyBakesWent(old(fileMappings), old(files), BakedHashes(old(fileMappings)), fileMappings, files)
      ensures faults == old(faults) && old(HasFiles(fileMappings, files)) ==>
        HasFiles(fileMappings, files) && NoOrphanedBakes()
      ensures faults == old(faults) && old(NoStrayFiles()) ==> NoStrayFiles()
    {
      var bakedHashes := BakedHashes(fileMappings);
      OrphansAreBaked(fileMappings);
      assert OnlyBakesWent(old(fileMappings), old(files), bakedHashes, fileMappings, files);
      hide OnlyBakesWent, BakedHashes, AnyDeletes, Faultless, Cascaded, OrphansAmong, HasFiles, IsSubmap, BakedFolder;
      while bakedHashes != {}
        invariant Valid() && Persisted() && faults >= old(faults)
        invariant bakedHashes <= BakedHashes(old(fileMappings))
        invariant OnlyBakesWent(old(fileMappings), old(files), BakedHashes(old(fileMappings)), fileMappings, files)
        invariant faults == old(faults) && old(HasFiles(fileMappings, files)) ==> HasFiles(fileMappings, files)
        invariant faults == old(faults) && old(HasFiles(fileMappings, files)) ==>
          OrphansAmong(fileMappings, bakedHashes)
        invariant faults == old(faults) && old(NoStrayFiles()) ==> NoStrayFiles()
        decreases |bakedHashes|
      {
        var hash :| hash in bakedHashes;
        bakedHashes := bakedHashes - {hash};
        ghost var m1, f1 := fileMappings, files;
        if hash !in fileMappings.Values {
          RemoveBakedPathsForDeletedAsset(hash);
          MoreBakesWent(old(fileMappings), old(files), BakedHashes(old(fileMappings)), m1, f1, f1, hash);
          if faults == old(faults) {
            NotOrphaned(hash);
            StillClean(m1, f1, hash, bakedHashes);
          }
        } else {
          MappedIsNoOrphan(hash, bakedHashes);
        }
      }
      NoneAmongNone();
      WentIsUnmapped(old(fileMappings), old(files), BakedHashes(old(fileMappings)), fileMappings, files);
    }

    static ghost predicate OrphansAmong(m: Mappings, hashes: set<Hash>) {
      forall h: Hash :: |h| == SHA256_HASH_HEX_LENGTH && Orphaned(m, h) ==> h in hashes
    }

    lemma NoneAmongNone()
      ensures OrphansAmong(fileMappings, {}) ==> NoOrphanedBakes()
    {
    }

    lemma MappedIsNoOrphan(hash: Hash, rest: set<Hash>)
      requires hash in fileMappings.Values
      ensures OrphansAmong(fileMappings, rest + {hash}) ==> OrphansAmong(fileMappings, rest)
    {
    }

    lemma OrphansAreBaked(m: Mappings)
      ensures OrphansAmong(m, BakedHashes(m))
    {
      forall h: Hash | |h| == SHA256_HASH_HEX_LENGTH && Orphaned(m, h) ensures h in BakedHashes(m) {
        BakedFolderFacts(h);
        var p :| p in m && BakedFolder(h) <= p;
        assert BakedHash(p) in BakedHashes(m);
      }
    }

    // What a removal of baked content without failures keeps.
    lemma StillClean(m1: Mappings, f1: set<Hash>, hash: Hash, rest: set<Hash>)
      requires Cascaded(m1, f1, [BakedFolder(hash)]) && Faultless(m1, f1, {}) && !Orphaned(fileMappings, hash)
      ensures HasFiles(m1, f1) ==> HasFiles(fileMappings, files)
      ensures HasFiles(m1, f1) && OrphansAmong(m1, rest + {hash}) ==> OrphansAmong(fileMappings, rest)
      ensures (forall g :: g in f1 && isValidHash(g) ==> g in m1.Values) ==> NoStrayFiles()
    {
    }

    lemma WentIsUnmapped(m0: Mappings, f0: set<Hash>, bakes: set<Hash>, m: Mappings, f: set<Hash>)
      requires OnlyBakesWent(m0, f0, bakes, m, f)
      ensures IsSubmap(m, m0) && f <= f0 && forall g :: g in f0 - f ==> g !in m.Values
    {
    }

    lemma NotOrphaned(hash: Hash)
      requires forall p :: p in fileMappings ==> !AnyDeletes([BakedFolder(hash)], p)
      ensures !Orphaned(fileMappings, hash)
    {
      BakedFolderFacts(hash);
      forall p | p in fileMappings ensures !(BakedFolder(hash) <= p) {
        AnyDeletesOne(BakedFolder(hash), p);
      }
    }

    /** The clean-up at the end of completeSetup: unless something fails, afterwards every asset file
        is mapped, every mapping has its file, and no baked content is orphaned. */
    method CleanupAtSetup(listing: seq<Hash>)
      requires Valid() && Persisted() && forall g :: g in files ==> g in listing
      modifies this`fileMappings, this`mapFile, this`files, this`faults
      ensures Valid() && Persisted() && faults >= old(faults)
      ensures IsSubmap(fileMappings, old(fileMappings)) && files <= old(files)
      ensures forall g :: g in old(files) - files ==> g !in fileMappings.Values
      ensures OnlyBakesWent(old(fileMappings), old(files), BakedHashes(old(fileMappings)), fileMappings, files)
      ensures old(fileMappings) == map[] ==> fileMappings == map[] && files == old(files)
      ensures old(fileMappings) != map[] && faults == old(faults) && old(HasFiles(fileMappings, files)) ==>
        HasFiles(fileMappings, files) && NoStrayFiles() && NoOrphanedBakes()
    {
      if |fileMappings| > 0 {
        CleanupUnmappedFiles(listing);
        ghost var m1, f1 := fileMappings, files;
        CleanupBakedFilesForDeletedAssets();
        ValuesShrink(fileMappings, m1);
        BothWent(old(fileMappings), old(files), m1, f1, fileMappings, files);
      }
    }

    lemma BothWent(m0: Mappings, f0: set<Hash>, m1: Mappings, f1: set<Hash>, m: Mappings, f: set<Hash>)
      requires OnlyBakesWent(m0, f0, {}, m1, f1) && OnlyBakesWent(m1, f1, BakedHashes(m1), m, f)
      ensures OnlyBakesWent(m0, f0, BakedHashes(m0), m, f)
    {
      ValuesShrink(m, m1);
      assert BakedHashes(m1) <= BakedHashes(m0);
      forall p | p in m0 && p !in m
        ensures exists h :: BakedFolder(h) <= p && h !in m.Values && (h in BakedHashes(m0) || h in f0 - f)
      {
        if p in m1 {
          var h :| BakedFolder(h) <= p && h !in m.Values && (h in BakedHashes(m1) || h in f1 - f);
        } else {
          var h :| BakedFolder(h) <= p && h !in m1.Values && h in f0 - f1;
        }
      }
    }

    // ---------- renaming ----------

    // The source dereferences the end iterator for a file that is not mapped: anything may happen.
    predicate IsUndefinedRename(rawOldPath: Path, rawNewPath: Path)
      reads this
    {
      var oldPath, newPath := Trimmed(rawOldPath), Trimmed(rawNewPath);
      isValidFilePath(oldPath) && isValidFilePath(newPath) && !IsFolder(oldPath) && !IsFolder(newPath) &&
        oldPath !in fileMappings
    }

    /** renameMapping. A failing folder rename changes nothing; a failing file rename leaves what
        FileRolledBack says. `order` is the order in which the copied mappings were visited. */
    method RenameMapping(rawOldPath: Path, rawNewPath: Path) returns (ok: bool, ghost order: seq<Path>)
      requires Valid() && Persisted()
      modifies this`fileMappings, this`mapFile, this`faults
      ensures !old(IsUndefinedRename(rawOldPath, rawNewPath)) ==>
        Valid() && if ok then Persisted() else mapFile == old(mapFile)
      ensures !old(IsUndefinedRename(rawOldPath, rawNewPath)) ==>
        var oldPath, newPath := Trimmed(rawOldPath), Trimmed(rawNewPath);
        if !isValidFilePath(oldPath) || !isValidFilePath(newPath) || IsFolder(oldPath) != IsFolder(newPath) then
          !ok && fileMappings == old(fileMappings)
        else if IsFolder(oldPath) then
          IsOrderOf(order, old(fileMappings).Keys) &&
          fileMappings == if ok then MoveAll(old(fileMappings), order, oldPath, newPath) else old(fileMappings)
        else
          fileMappings == if ok then FileRenamed(old(fileMappings), oldPath, newPath)
                          else FileRolledBack(old(fileMappings), oldPath, newPath)
    {
      var oldPath, newPath := Trimmed(rawOldPath), Trimmed(rawNewPath);
      ok, order := false, [];
      if isValidFilePath(oldPath) && isValidFilePath(newPath) {
        if IsFolder(oldPath) {
          if IsFolder(newPath) {
            ok, order := RenameFolder(oldPath, newPath);
          }
        } else if !IsFolder(newPath) {
          if oldPath in fileMappings {
            ok := RenameFile(oldPath, newPath);
          } else {
            ok, fileMappings, mapFile := *, *, *;
          }
        }
      }
    }

    method RenameFolder(oldPath: Path, newPath: Path) returns (ok: bool, ghost order: seq<Path>)
      requires Valid() && Persisted()
      modifies this`fileMappings, this`mapFile, this`faults
      ensures Valid() && Persisted() && (!ok ==> mapFile == old(mapFile))
      ensures IsOrderOf(order, old(fileMappings).Keys)
      ensures fileMappings == if ok then MoveAll(old(fileMappings), order, oldPath, newPath) else old(fileMappings)
    {
      var oldMappings := fileMappings;
      order := MoveFolder(oldPath, newPath);
      ok := WriteMappingsToFile();
      if !ok {
        fileMappings := oldMappings;
      }
    }

    method RenameFile(oldPath: Path, newPath: Path) returns (ok: bool)
      requires Valid() && Persisted() && oldPath in fileMappings
      modifies this`fileMappings, this`mapFile, this`faults
      ensures Valid() && (if ok then Persisted() else mapFile == old(mapFile))
      ensures fileMappings == if ok then FileRenamed(old(fileMappings), oldPath, newPath)
                              else FileRolledBack(old(fileMappings), oldPath, newPath)
    {
      ghost var m := fileMappings;
      var oldSourceMapping := fileMappings[oldPath];
      fileMappings := fileMappings - {oldPath};
      var hadDestination := newPath in fileMappings;
      ok := false;
      if oldSourceMapping != "" {
        fileMappings := fileMappings[newPath := oldSourceMapping];
        ok := WriteMappingsToFile();
        if !ok {
          RollBack(oldPath, newPath, oldSourceMapping, hadDestination, m);
        }
      } else {
        assert false;
      }
    }

    method RollBack(oldPath: Path, newPath: Path, oldSourceMapping: Hash, hadDestination: bool, ghost m: Mappings)
      requires oldPath in m && oldSourceMapping == m[oldPath] && hadDestination == (newPath in m && newPath != oldPath)
      requires fileMappings == FileRenamed(m, oldPath, newPath)
      modifies this`fileMappings
      ensures fileMappings == FileRolledBack(m, oldPath, newPath)
    {
      fileMappings := fileMappings[oldPath := oldSourceMapping];
      if hadDestination {
        // the iterator to the destination finds what was written there in the meantime
        fileMappings := fileMappings[newPath := fileMappings[newPath]];
      } else {
        fileMappings := fileMappings - {newPath};
      }
    }

    method MoveFolder(oldPath: Path, newPath: Path) returns (ghost order: seq<Path>)
      requires forall p :: p in fileMappings ==> isValidHash(fileMappings[p])
      modifies this`fileMappings
      ensures IsOrderOf(order, old(fileMappings).Keys)
      ensures fileMappings == MoveAll(old(fileMappings), order, oldPath, newPath)
      ensures forall p :: p in fileMappings ==> isValidHash(fileMappings[p])
    {
      var oldMappings := fileMappings;
      var todo := oldMappings.Keys;
      order := [];
      while todo != {}
        invariant todo <= oldMappings.Keys && IsOrderOf(order, oldMappings.Keys - todo)
        invariant fileMappings == MoveAll(oldMappings, order, oldPath, newPath)
        invariant forall p :: p in fileMappings ==> isValidHash(fileMappings[p])
        decreases |todo|
      {
        var oldKey :| oldKey in todo;
        todo := todo - {oldKey};
        if oldPath <= oldKey {
          var newKey := newPath + oldKey[|oldPath|..];
          fileMappings := fileMappings - {oldKey};
          fileMappings := fileMappings[newKey := oldMappings[oldKey]];
        }
        assert (order + [oldKey])[..|order|] == order;
        order := order + [oldKey];
      }
    }

    /** With the repository's own notion of a valid path no folder path is valid, so every folder
        rename is refused and its branch is never reached. */
    lemma FolderRenamesAreRefused(oldPath: Path, newPath: Path)
      requires forall p :: isValidFilePath(p) ==> MatchesFilePathRegex(p)
      requires IsFolder(oldPath) || IsFolder(newPath)
      ensures !isValidFilePath(oldPath) || !isValidFilePath(newPath)
    {
      if isValidFilePath(oldPath) && isValidFilePath(newPath) {
        ValidFilePathIsNoFolder(oldPath);
        ValidFilePathIsNoFolder(newPath);
      }
    }
  }
}
