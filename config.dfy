/** The configuration records of the functional path and link helpers. */
module ConfigDataclasses {
  import opened Wrappers
  import opened Types
  import opened FileTree
  import Paths

  /** `PathConfig`: where the cache lives and how readable paths are built.
      `__post_init__` fills in the entry-directory callback and creates the
      two top-level directories. */
  class PathConfig {
    const cacheDir: Path
    const symlinksDirName: string
    const nested: bool
    const trimArg: int
    var entryDirCallback: Option<Paths.EntryDirCallback>

    /** The generated `__init__`, up to the call of `__post_init__`: the fields
        with their defaults `"functions"`, `True`, `50` and `None`. */
    constructor (cacheDir: Path, symlinksDirName: string := "functions", nested: bool := true,
                 trimArg: int := 50, entryDirCallback: Option<Paths.EntryDirCallback> := None)
      ensures this.cacheDir == cacheDir && this.symlinksDirName == symlinksDirName
      ensures this.nested == nested && this.trimArg == trimArg
      ensures this.entryDirCallback == entryDirCallback
    {
      this.cacheDir := cacheDir;
      this.symlinksDirName := symlinksDirName;
      this.nested := nested;
      this.trimArg := trimArg;
      this.entryDirCallback := entryDirCallback;
    }

    /** `__post_init__`: a missing callback becomes `create_entry_dir_name`
        with `trim_arg` fixed at its present value (a supplied one is kept),
        then `blobs` and the readable directory are created unless they are
        directories already. */
    method PostInit(fs: FileSystem) returns (r: Outcome<Error>)
      requires fs.Valid()
      modifies this, fs
      ensures fs.Valid()
      ensures entryDirCallback == Some(if old(entryDirCallback).Some? then old(entryDirCallback).value
                                       else Paths.CreateEntryDirNameWith(trimArg))
      ensures (r, fs.nodes) == MkdirBoth(old(fs.nodes), cacheDir + ["blobs"], cacheDir + [symlinksDirName])
      ensures r.Pass? ==> IsDir(fs.nodes, cacheDir + ["blobs"]) && IsDir(fs.nodes, cacheDir + [symlinksDirName])
      ensures IsDir(old(fs.nodes), cacheDir + ["blobs"]) && IsDir(old(fs.nodes), cacheDir + [symlinksDirName])
              ==> r.Pass? && fs.nodes == old(fs.nodes)
    {
      MkdirBothEffect(fs.nodes, cacheDir + ["blobs"], cacheDir + [symlinksDirName]);
      if entryDirCallback.None? {
        entryDirCallback := Some(Paths.CreateEntryDirNameWith(trimArg));
      }
      r := fs.Mkdir(cacheDir + ["blobs"], false, true);
      if r.Fail? {
        return;
      }
      r := fs.Mkdir(cacheDir + [symlinksDirName], false, true);
    }
  }

  /** `PathConfig(...)`: the generated `__init__` followed by `__post_init__`;
      an error of either `mkdir` means no configuration is made. */
  method NewPathConfig(fs: FileSystem, cacheDir: Path, symlinksDirName: string := "functions", nested: bool := true,
                       trimArg: int := 50, entryDirCallback: Option<Paths.EntryDirCallback> := None)
    returns (r: Result<PathConfig, Error>)
    requires fs.Valid()
    modifies fs
    ensures fs.Valid()
    ensures r.Success? ==>
      && fresh(r.value)
      && r.value.cacheDir == cacheDir && r.value.symlinksDirName == symlinksDirName
      && r.value.nested == nested && r.value.trimArg == trimArg
      && r.value.entryDirCallback == Some(if entryDirCallback.Some? then entryDirCallback.value
                                          else Paths.CreateEntryDirNameWith(trimArg))
      && IsDir(fs.nodes, cacheDir + ["blobs"]) && IsDir(fs.nodes, cacheDir + [symlinksDirName])
    ensures (if r.Success? then Pass else Fail(r.error), fs.nodes)
            == MkdirBoth(old(fs.nodes), cacheDir + ["blobs"], cacheDir + [symlinksDirName])
  {
    var config := new PathConfig(cacheDir, symlinksDirName, nested, trimArg, entryDirCallback);
    var made := config.PostInit(fs);
    if made.Fail? {
      return Failure(made.error);
    }
    r := Success(config);
  }

  /** `SymlinkConfig`: the configured link name, `None` by default. */
  datatype SymlinkConfig = SymlinkConfig(symlinkName: Option<NameSource> := None)
}
