/** The class of apk_storage_fs.py, whose index and directory the methods update in place, proved
    against the steps of ApkStorage. */
module ApkStorageFilesystem {
  import opened ApkFilename
  import opened Wrappers
  import opened ApkStorage
  import opened Chunks

  class APKStorageFilesystem {
    /** The files of the package directory other than the configuration. */
    var files: map<string, seq<bv8>>
    var apks: map<Key, Package>

    ghost function State(): Store
      reads this
    {
      Store(files, apks)
    }

    /** `__init__`: an empty index beside whatever the directory holds. */
    constructor (directory: map<string, seq<bv8>>)
      ensures State() == Store(directory, map[])
    {
      files, apks := directory, map[];
    }

    /** `reload`, through the rebuild loop of `__create_config`. */
    method ReloadIndex(lister: set<string> -> seq<string>)
      requires Lister(lister)
      modifies this
      ensures State() == Reload(old(State()), lister)
    {
      hide ReadBack;
      var listing := lister(files.Keys);
      for i := 0 to |listing|
        invariant files == old(files)
        invariant apks == Scan(listing[..i], files, old(apks))
      {
        var filename := listing[i];
        assert listing[..i + 1][..i] == listing[..i];
        var named := ReadBack(filename);
        if named.None? { continue; }
        var l := named.value;
        apks := apks[(l.package, l.arch) := Package(l.version, filename, l.mimetype, |files[filename]|)];
      }
      assert listing[..|listing|] == listing;
    }

    method ValidateFile(k: Key) returns (found: bool)
      modifies this
      ensures (State(), found) == Validate(old(State()), k)
    {
      if k !in apks { return false; }
      if apks[k].filename !in files {
        apks := apks - {k};
        return false;
      }
      return true;
    }

    method DeleteIndexedFile(k: Key) returns (deleted: bool)
      modifies this
      ensures (State(), deleted) == DeleteIndexed(old(State()), k)
    {
      deleted := ValidateFile(k);
      if deleted {
        var info := apks[k];
        files := files - {info.filename};
        apks := apks - {k};
      }
    }

    /** `delete_file`; false where FileNotFoundError is raised. */
    method Delete(k: Key, lister: set<string> -> seq<string>) returns (deleted: bool)
      requires Lister(lister)
      modifies this
      ensures (State(), deleted) == DeleteFile(old(State()), k, lister)
    {
      deleted := DeleteIndexedFile(k);
      if !deleted {
        ReloadIndex(lister);
        deleted := DeleteIndexedFile(k);
      }
    }

    /** `save_file`. */
    method Save(k: Key, version: string, mimetype: string, data: seq<bv8>, retry: bool,
                lister: set<string> -> seq<string>)
      returns (saved: bool)
      requires Lister(lister)
      modifies this
      ensures (State(), saved) == SaveFile(old(State()), k, version, mimetype, data, retry, lister)
      decreases retry
    {
      hide ReadBack;
      hide GenerateFilename;
      var filename := GenerateFilename(k.0, k.1, version, mimetype);
      var _ := Delete(k, lister);
      var _ := Delete(k, lister);
      if !Writable(filename) {
        if retry && '\0' !in filename {
          saved := Save(k, version, mimetype, data, false, lister);
          return;
        }
        return false;
      }
      files := files[filename := data];
      apks := apks[k := Package(version, filename, mimetype, |files[filename]|)];
      saved := true;
    }

    /** `get_current_version`, which has the index rebuilt and looks once more before it fails. */
    method GetCurrentVersion(k: Key, lister: set<string> -> seq<string>) returns (version: Option<string>)
      requires Consistent(State()) && Lister(lister)
      modifies this
      ensures State() == old(State())
      ensures version == if k in Held(State()) then Some(Held(State())[k].version) else None
    {
      var found := ValidateFile(k);
      if !found {
        ReloadNeutral(State(), lister);
        ReloadIndex(lister);
        found := ValidateFile(k);
      }
      version := if found then Some(apks[k].version) else None;
    }

    /** The chunks in which a stored package is served: they join to the bytes it was saved from. */
    method GetChunks(k: Key) returns (chunks: seq<seq<bv8>>)
      requires Consistent(State()) && k in apks
      ensures Joined(chunks) == Held(State())[k].data && WellCut(chunks, CHUNK_MAX_SIZE)
    {
      var data := files[apks[k].filename];
      chunks := ReadChunks(data, CHUNK_MAX_SIZE);
      ChunksJoin(data, CHUNK_MAX_SIZE);
      ChunksFull(data, CHUNK_MAX_SIZE);
    }
  }
}
