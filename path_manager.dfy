/** The path manager the cache uses: the blob directory, the readable
    directory and the entry-directory callback of one cache configuration. */
module PathManager {
  import opened Wrappers
  import opened Types
  import opened FileTree
  import Paths
  import opened PercentEncoding

  /** The manager's entry-directory callback: the default method bound to a
      manager, which trims at that manager's `trim_arg` (a field no code
      changes after construction), or a callback the user supplied. */
  datatype EntryDirCallback =
    | DefaultOf(ownerTrimArg: int)
    | Custom(f: (FuncId, Args) -> string)

  /** The entry directory name a callback gives a call. */
  function EntryOf(callback: EntryDirCallback, func: FuncId, args: Args): string {
    match callback
    case DefaultOf(ownerTrimArg) => Paths.EntryDirName(args, ownerTrimArg)
    case Custom(f) => f(func, args)
  }

  class CachePathManager {
    const cacheDir: Path
    const symlinksDirName: string
    const nested: bool
    const trimArg: int
    const parquetDir: Path := cacheDir + ["blobs"]
    const readableDir: Path := cacheDir + [symlinksDirName]
    const entryDirCallback: EntryDirCallback

    /** Sets the fields; a missing callback becomes this manager's own default. */
    constructor (cacheDir: Path, symlinksDirName: string := "functions", nested: bool := true,
                 trimArg: int := 50, entryDirCallback: Option<EntryDirCallback> := None)
      ensures this.cacheDir == cacheDir && this.symlinksDirName == symlinksDirName
      ensures this.nested == nested && this.trimArg == trimArg
      ensures this.entryDirCallback == if entryDirCallback.Some? then entryDirCallback.value else DefaultOf(trimArg)
    {
      this.cacheDir := cacheDir;
      this.symlinksDirName := symlinksDirName;
      this.nested := nested;
      this.trimArg := trimArg;
      this.entryDirCallback := if entryDirCallback.Some? then entryDirCallback.value else DefaultOf(trimArg);
    }

    /** `CachePathManager(...)`: the fields, then `blobs` and the readable
        directory are created unless they already exist as directories. */
    static method New(fs: FileSystem, cacheDir: Path, symlinksDirName: string := "functions", nested: bool := true,
                      trimArg: int := 50, entryDirCallback: Option<EntryDirCallback> := None)
      returns (r: Result<CachePathManager, Error>)
      requires fs.Valid()
      modifies fs
      ensures fs.Valid()
      ensures r.Success? ==>
        && fresh(r.value)
        && r.value.cacheDir == cacheDir && r.value.symlinksDirName == symlinksDirName
        && r.value.nested == nested && r.value.trimArg == trimArg
        && r.value.entryDirCallback == (if entryDirCallback.Some? then entryDirCallback.value else DefaultOf(trimArg))
        && IsDir(fs.nodes, cacheDir + ["blobs"]) && IsDir(fs.nodes, cacheDir + [symlinksDirName])
      ensures (if r.Success? then Pass else Fail(r.error), fs.nodes)
              == MkdirBoth(old(fs.nodes), cacheDir + ["blobs"], cacheDir + [symlinksDirName])
    {
      MkdirBothEffect(fs.nodes, cacheDir + ["blobs"], cacheDir + [symlinksDirName]);
      var m := new CachePathManager(cacheDir, symlinksDirName, nested, trimArg, entryDirCallback);
      var made := fs.Mkdir(m.parquetDir, false, true);
      if made.Fail? {
        return Failure(made.error);
      }
      made := fs.Mkdir(m.readableDir, false, true);
      if made.Fail? {
        return Failure(made.error);
      }
      r := Success(m);
    }

    /** `_default_entry_dir_name`: the default entry name, trimmed at this manager's `trim_arg`. */
    method DefaultEntryDirName(func: FuncId, args: Args) returns (name: string)
      ensures name == Paths.EntryDirName(args, trimArg)
    {
      name := Paths.CreateEntryDirName(func, args, trimArg);
    }

    /** `get_parquet_path`: the same path as the configuration-level
        `get_parquet_path` for this manager's cache directory. */
    function GetParquetPath(cacheKey: string): (p: Path)
      ensures p == Paths.GetParquetPath(cacheDir, cacheKey)
    {
      parquetDir + [cacheKey + ".parquet"]
    }

    /** `get_readable_path`: the function directory under the readable
        directory, then the entry directory named by the stored callback. */
    method GetReadablePath(func: FuncId, args: Args) returns (p: Path)
      ensures p == Paths.FunctionDir(readableDir, nested, func) + [EntryOf(entryDirCallback, func, args)]
    {
      var readablePath: Path;
      if nested {
        var encodedModule := Quote(func.moduleName);
        var encodedQualname := Quote(func.qualname);
        readablePath := readableDir + [encodedModule, encodedQualname];
      } else {
        var fullQualname := func.moduleName + "." + func.qualname;
        readablePath := readableDir + [Quote(fullQualname)];
      }
      var entryDirName: string;
      match entryDirCallback {
        case DefaultOf(ownerTrimArg) =>
          entryDirName := Paths.CreateEntryDirName(func, args, ownerTrimArg);
        case Custom(f) =>
          entryDirName := f(func, args);
      }
      p := readablePath + [entryDirName];
    }
  }

  /** A manager with its own default callback and a path configuration whose
      callback is `create_entry_dir_name` with the same `trim_arg` give every
      call the same readable path. */
  lemma ReadablePathsAgree(m: CachePathManager, func: FuncId, args: Args)
    requires m.entryDirCallback == DefaultOf(m.trimArg)
    ensures Paths.FunctionDir(m.readableDir, m.nested, func) + [EntryOf(m.entryDirCallback, func, args)]
         == Paths.FunctionDir(m.cacheDir + [m.symlinksDirName], m.nested, func)
              + [Paths.EntryOf(Paths.CreateEntryDirNameWith(m.trimArg), func, args)]
  {
  }
}
