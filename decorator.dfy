/** The cache itself: the key of a call, the wrapper that answers a call
    from the stored blob or stores a new result and links it, `clear`, and
    the module-level handle behind `cache()`. */
module Decorator {
  import opened Wrappers
  import opened Types
  import opened FileTree
  import opened RelPaths
  import opened PercentEncoding
  import Paths
  import opened PathManager
  import SymlinkManager
  import ConfigDataclasses
  import Symlinks

  // ---------------------------------------------------------------------------
  // Cache keys

  predicate IsLowerHex(c: char) {
    '0' <= c <= '9' || 'a' <= c <= 'f'
  }

  /** What `hexdigest()` of a SHA-256 returns: 64 lower-case hex digits. */
  type HexDigest = s: string | |s| == 64 && forall i :: 0 <= i < |s| ==> IsLowerHex(s[i])
    witness seq(64, i => '0')

  /** `str.encode()`: the UTF-8 bytes of a string. */
  function Utf8Encode(s: string): (bs: seq<byte>)
    ensures |s| <= |bs| <= 4 * |s|
  {
    if s == [] then [] else Utf8(s[0]) + Utf8Encode(s[1..])
  }

  /** The `str()` of a dict of already-rendered arguments: `{'k': repr, ...}`. */
  function DictItems(args: Args): (items: seq<string>)
    ensures |items| == |args|
  {
    if args == [] then [] else ["'" + args[0].0 + "': " + args[0].1.repr] + DictItems(args[1..])
  }

  function DictRepr(args: Args): string {
    "{" + Paths.Join(DictItems(args), ", ") + "}"
  }

  /** `_DEFAULT_CACHE_IDENT`: `module.qualname({bound_args})`. */
  function DefaultCacheIdent(func: FuncId, args: Args): string {
    func.moduleName + "." + func.qualname + "(" + DictRepr(args) + ")"
  }

  /** Two calls of one function have the same default ident only when their
      arguments print the same: the function part and the brackets around
      the arguments are fixed. */
  lemma DefaultIdentSeparatesArgs(func: FuncId, a1: Args, a2: Args)
    requires DefaultCacheIdent(func, a1) == DefaultCacheIdent(func, a2)
    ensures DictRepr(a1) == DictRepr(a2)
  {
    var prefix := func.moduleName + "." + func.qualname + "(";
    var i1 := DefaultCacheIdent(func, a1);
    assert i1 == prefix + DictRepr(a1) + ")";
    assert i1 == prefix + DictRepr(a2) + ")";
    assert DictRepr(a1) == i1[|prefix|..|i1| - 1];
    assert DictRepr(a2) == i1[|prefix|..|i1| - 1];
  }

  /** The ident of a call: the default one, or the user's `cache_key` callback. */
  datatype CacheIdent = DefaultIdent | CustomIdent(f: (FuncId, Args) -> string)

  function IdentOf(cacheIdent: CacheIdent, func: FuncId, args: Args): string {
    match cacheIdent
    case DefaultIdent => DefaultCacheIdent(func, args)
    case CustomIdent(f) => f(func, args)
  }

  // ---------------------------------------------------------------------------
  // Stored results

  /** A metadata entry: the blob's path and whether the result was lazy. */
  datatype Record = Record(path: Path, isLazy: bool)

  /** `_load_polars_result`: a stored table comes back eager or lazy as
      recorded; a directory or a link at the blob path cannot be read. */
  function Load(node: Node, isLazy: bool): Result<Frame, Error> {
    match node
    case File(data) => Success(if isLazy then Lazy(data) else Eager(data))
    case Dir => Failure(IsADirectoryError)
    case Link(_) => Failure(FileNotFoundError)
  }

  /** What the wrapper answers for a key without calling the function: the
      loaded blob when the key is recorded and its path exists. */
  function Cached(metadata: map<string, Record>, nodes: map<Path, Node>, key: string): Option<Result<Frame, Error>> {
    if key in metadata && metadata[key].path in nodes then Some(Load(nodes[metadata[key].path], metadata[key].isLazy))
    else None
  }

  /** Storing a frame and recording it makes the next lookup return that very
      frame, eager or lazy as it was. */
  lemma StoreThenLoad(metadata: map<string, Record>, nodes: map<Path, Node>, key: string, blob: Path, f: Frame)
    requires !f.Other?
    ensures Cached(metadata[key := Record(blob, f.Lazy?)], nodes[blob := File(f.data)], key) == Some(Success(f))
  {
  }

  // ---------------------------------------------------------------------------
  // Decorator overrides and what the wrapper adds to the tree

  /** The arguments of `cache_polars`: each one, when given, overrides the
      instance's setting for the readable link. */
  datatype Overrides = Overrides(
    symlinksDir: Option<string> := None,
    nested: Option<bool> := None,
    trimArg: Option<int> := None,
    symlinkName: Option<NameSource> := None)

  /** The wrapper builds temporary managers when any override is given. */
  predicate AnyOverride(o: Overrides) {
    o.symlinksDir.Some? || o.nested.Some? || o.trimArg.Some? || o.symlinkName.Some?
  }

  /** The tree grows by a step of the wrapper: nothing that existed changes,
      and every new node is a directory or a link in `linkDir` to `blob`. */
  predicate Grows(before: map<Path, Node>, after: map<Path, Node>, linkDir: Path, blob: Path) {
    && (forall q :: q in before ==> q in after && after[q] == before[q])
    && (forall q :: q in after && q !in before ==>
          || after[q] == Dir
          || (q != [] && Parent(q) == linkDir && after[q] == Link(RelPath(blob, linkDir))))
  }

  lemma GrowsTransitive(a: map<Path, Node>, b: map<Path, Node>, c: map<Path, Node>, linkDir: Path, blob: Path)
    requires Grows(a, b, linkDir, blob) && Grows(b, c, linkDir, blob)
    ensures Grows(a, c, linkDir, blob)
  {
    forall q | q in c && q !in a
      ensures c[q] == Dir || (q != [] && Parent(q) == linkDir && c[q] == Link(RelPath(blob, linkDir)))
    {
      if q in b {
        assert c[q] == b[q];
      }
    }
  }

  lemma GrowsByMkdir(nodes: map<Path, Node>, p: Path, parents: bool, linkDir: Path, blob: Path)
    requires WellFormed(nodes) && MkdirOutcome(nodes, p, parents, true) == Pass
    ensures Grows(nodes, MkdirAll(nodes, p), linkDir, blob)
  {
    MkdirEffect(nodes, p, parents, true);
  }

  lemma GrowsByLink(nodes: map<Path, Node>, linkDir: Path, name: string, blob: Path, linkAllowed: bool)
    ensures Grows(nodes, Symlinks.PlaceLink(nodes, linkDir + [name], RelPath(blob, linkDir), linkAllowed), linkDir, blob)
  {
    assert Parent(linkDir + [name]) == linkDir;
  }

  /** Every link the wrapper adds leads, from its own directory, to the blob. */
  lemma GrownLinksResolve(before: map<Path, Node>, after: map<Path, Node>, linkDir: Path, blob: Path)
    requires Grows(before, after, linkDir, blob)
    ensures forall q :: q in after && q !in before && after[q].Link? ==>
      q != [] && Resolve(Parent(q), after[q].target) == Normalize(blob)
  {
    RelPathResolves(blob, linkDir);
  }

  /** The link step of the wrapper: the readable directory is made (with
      parents) and a link is placed there, as the link manager does it. */
  lemma GrowsByCreateSymlink(before: map<Path, Node>, after: map<Path, Node>, r: Outcome<Error>,
                             name: Result<string, Error>, linkDir: Path, blob: Path, linkAllowed: bool)
    requires WellFormed(before)
    requires var made := MkdirOutcome(before, linkDir, true, true);
      var mid := MkdirAll(before, linkDir);
      && (made.Fail? ==> r == made && after == before)
      && (made.Pass? && name.Failure? ==> r == Fail(name.error) && after == mid)
      && (made.Pass? && name.Success? ==>
            r == Pass && after == Symlinks.PlaceLink(mid, linkDir + [name.value], RelPath(blob, linkDir), linkAllowed))
    ensures Grows(before, after, linkDir, blob)
    ensures r.Pass? <==> MkdirOutcome(before, linkDir, true, true).Pass? && name.Success?
    ensures r.Fail? ==>
      || r.error == FileExistsError || r.error == FileNotFoundError || r.error == NotADirectoryError
      || (name.Failure? && r.error == name.error)
  {
    var made := MkdirOutcome(before, linkDir, true, true);
    if made.Pass? {
      var mid := MkdirAll(before, linkDir);
      GrowsByMkdir(before, linkDir, true, linkDir, blob);
      if name.Success? {
        GrowsByLink(mid, linkDir, name.value, blob, linkAllowed);
        GrowsTransitive(before, mid, after, linkDir, blob);
      }
    } else {
      MkdirFailure(before, linkDir, true, true);
    }
  }

  /** The errors `mkdir` can report. */
  lemma {:induction false} MkdirFailure(nodes: map<Path, Node>, p: Path, parents: bool, existOk: bool)
    requires MkdirOutcome(nodes, p, parents, existOk).Fail?
    ensures var e := MkdirOutcome(nodes, p, parents, existOk).error;
      e == FileExistsError || e == FileNotFoundError || e == NotADirectoryError
    decreases |p|
  {
    if p !in nodes && p != [] && Parent(p) !in nodes && parents {
      MkdirFailure(nodes, Parent(p), true, true);
    }
  }

  /** The directory part of `Path.cwd() / name` or `gettempdir() / name`
      when no cache directory is given. */
  function ResolveCacheDir(cacheDir: Option<Path>, useTmp: bool, hidden: bool, cwd: Path, tmp: Path): (dir: Path)
    ensures cacheDir.Some? ==> dir == cacheDir.value
    ensures cacheDir.None? ==>
      && |dir| > 0
      && dir[..|dir| - 1] == (if useTmp then tmp else cwd)
      && dir[|dir| - 1] == (if hidden then ".polars_cache" else "polars_cache")
  {
    match cacheDir
    case Some(d) => d
    case None => (if useTmp then tmp else cwd) + [if hidden then ".polars_cache" else "polars_cache"]
  }

  /** The directory steps of `PolarsCache(...)` on the tree `nodes`: the
      cache directory with its parents, then the path manager's `blobs` and
      readable directory, then `metadata` with its parents (the metadata
      store's own directory creation, taken as a pathlib `mkdir`). The outcome
      is the first error, and the tree is as the steps taken so far left it. */
  function OpenEffect(nodes: map<Path, Node>, dir: Path, symlinksDir: string): (Outcome<Error>, map<Path, Node>) {
    match MkdirOutcome(nodes, dir, true, true)
    case Fail(e) => (Fail(e), nodes)
    case Pass =>
      var (managed, afterManager) := MkdirBoth(MkdirAll(nodes, dir), dir + ["blobs"], dir + [symlinksDir]);
      if managed.Fail? then (managed, afterManager)
      else match MkdirOutcome(afterManager, dir + ["metadata"], true, true)
        case Fail(e) => (Fail(e), afterManager)
        case Pass => (Pass, MkdirAll(afterManager, dir + ["metadata"]))
  }

  /** The directories the cache needs in place. */
  predicate CacheDirs(q: Path, dir: Path, symlinksDir: string) {
    q <= dir || q == dir + ["blobs"] || q == dir + [symlinksDir] || q == dir + ["metadata"]
  }

  /** Opening a cache fails exactly when something that is not a directory
      stands on the way to the cache directory or at one of its three
      subdirectories. On success those are directories, nothing that existed
      changes, and only directories among them are added. */
  lemma OpenSucceedsIff(nodes: map<Path, Node>, dir: Path, symlinksDir: string)
    requires WellFormed(nodes)
    ensures var (r, after) := OpenEffect(nodes, dir, symlinksDir);
      && WellFormed(after)
      && (r.Pass? <==> forall q :: q in nodes && CacheDirs(q, dir, symlinksDir) ==> nodes[q] == Dir)
      && (forall q :: q in nodes ==> q in after && after[q] == nodes[q])
      && (forall q :: q in after && q !in nodes ==> after[q] == Dir && CacheDirs(q, dir, symlinksDir))
      && (r.Pass? ==>
            && IsDir(after, dir) && IsDir(after, dir + ["blobs"])
            && IsDir(after, dir + [symlinksDir]) && IsDir(after, dir + ["metadata"]))
  {
    var blobs, readable, meta := dir + ["blobs"], dir + [symlinksDir], dir + ["metadata"];
    MkdirParentsPasses(nodes, dir);
    if MkdirOutcome(nodes, dir, true, true).Pass? {
      MkdirEffect(nodes, dir, true, true);
      var mid := MkdirAll(nodes, dir);
      AncestorsAreDirs(mid, dir);
      assert !(blobs <= dir) && !(readable <= dir) && !(meta <= dir);
      ChildMkdir(mid, dir, "blobs", false);
      MkdirBothEffect(mid, blobs, readable);
      var (managed, afterManager) := MkdirBoth(mid, blobs, readable);
      if managed.Pass? {
        assert IsDir(afterManager, dir);
        ChildMkdir(MkdirAll(mid, blobs), dir, symlinksDir, false);
        ChildMkdir(afterManager, dir, "metadata", true);
        MkdirParentsPasses(afterManager, meta);
        if MkdirOutcome(afterManager, meta, true, true).Pass? {
          MkdirEffect(afterManager, meta, true, true);
        }
      } else {
        ChildMkdir(MkdirAll(mid, blobs), dir, symlinksDir, false);
      }
    }
  }

  /** Names of the blob files `glob("*.parquet")` finds. */
  predicate EndsWith(s: string, suffix: string) {
    |suffix| <= |s| && s[|s| - |suffix|..] == suffix
  }

  /** The children of `dir` whose names end in `.parquet`. */
  function ParquetFiles(nodes: map<Path, Node>, dir: Path): (files: set<Path>)
    ensures forall q :: q in files <==>
      q in nodes && |q| == |dir| + 1 && q[..|dir|] == dir && EndsWith(q[|dir|], ".parquet")
  {
    set q | q in nodes && |q| == |dir| + 1 && q[..|dir|] == dir && EndsWith(q[|dir|], ".parquet")
  }

  // ---------------------------------------------------------------------------
  // The cache

  /** `PolarsCache`: its settings are fixed at construction; the metadata
      store (a map from cache key to record) and the filesystem change. */
  class PolarsCache {
    const cacheDir: Path
    const pathManager: CachePathManager
    const symlinkManager: SymlinkManager.SymlinkManager
    const cacheIdent: CacheIdent
    /** SHA-256 as a hex digest; only its shape is known. */
    const sha256: seq<byte> -> HexDigest
    const fs: FileSystem
    var metadata: map<string, Record>

    predicate Valid()
      reads fs
    {
      fs.Valid() && pathManager.cacheDir == cacheDir
    }

    constructor (fs: FileSystem, cacheDir: Path, pathManager: CachePathManager,
                 symlinkManager: SymlinkManager.SymlinkManager, cacheIdent: CacheIdent,
                 sha256: seq<byte> -> HexDigest, metadata: map<string, Record>)
      requires fs.Valid() && pathManager.cacheDir == cacheDir
      ensures Valid()
      ensures this.fs == fs && this.cacheDir == cacheDir && this.pathManager == pathManager
      ensures this.symlinkManager == symlinkManager && this.cacheIdent == cacheIdent
      ensures this.sha256 == sha256 && this.metadata == metadata
    {
      this.fs := fs;
      this.cacheDir := cacheDir;
      this.pathManager := pathManager;
      this.symlinkManager := symlinkManager;
      this.cacheIdent := cacheIdent;
      this.sha256 := sha256;
      this.metadata := metadata;
    }

    /** `PolarsCache(...)`: the cache directory is chosen and made (with
        parents), then the path manager makes `blobs` and the readable
        directory, then the metadata store makes `metadata`. The store starts
        from the records `stored` it already holds on disk. */
    static method Open(fs: FileSystem, sha256: seq<byte> -> HexDigest, stored: map<string, Record>,
                       cwd: Path, tmp: Path, cacheDir: Option<Path> := None, useTmp: bool := false,
                       hidden: bool := true, symlinksDir: string := "functions", nested: bool := true,
                       trimArg: int := 50, symlinkName: Option<NameSource> := None,
                       cacheKey: Option<(FuncId, Args) -> string> := None,
                       entryDir: Option<(FuncId, Args) -> string> := None)
      returns (r: Result<PolarsCache, Error>)
      requires fs.Valid()
      modifies fs
      ensures fs.Valid()
      ensures var dir := ResolveCacheDir(cacheDir, useTmp, hidden, cwd, tmp);
        r.Success? ==>
          && fresh(r.value) && r.value.Valid() && r.value.fs == fs
          && r.value.cacheDir == dir && r.value.metadata == stored && r.value.sha256 == sha256
          && r.value.pathManager.symlinksDirName == symlinksDir
          && r.value.pathManager.nested == nested && r.value.pathManager.trimArg == trimArg
          && r.value.pathManager.entryDirCallback == (if entryDir.Some? then Custom(entryDir.value) else DefaultOf(trimArg))
          && r.value.symlinkManager.symlinkName == symlinkName
          && r.value.cacheIdent == (if cacheKey.Some? then CustomIdent(cacheKey.value) else DefaultIdent)
          && IsDir(fs.nodes, dir) && IsDir(fs.nodes, dir + ["blobs"])
          && IsDir(fs.nodes, dir + [symlinksDir]) && IsDir(fs.nodes, dir + ["metadata"])
      ensures (if r.Success? then Pass else Fail(r.error), fs.nodes)
              == OpenEffect(old(fs.nodes), ResolveCacheDir(cacheDir, useTmp, hidden, cwd, tmp), symlinksDir)
      ensures forall q :: q in old(fs.nodes) ==> q in fs.nodes && fs.nodes[q] == old(fs.nodes)[q]
      ensures var dir := ResolveCacheDir(cacheDir, useTmp, hidden, cwd, tmp);
        && IsDir(old(fs.nodes), dir) && IsDir(old(fs.nodes), dir + ["blobs"])
        && IsDir(old(fs.nodes), dir + [symlinksDir]) && IsDir(old(fs.nodes), dir + ["metadata"])
        ==> r.Success? && fs.nodes == old(fs.nodes)
    {
      var dir := ResolveCacheDir(cacheDir, useTmp, hidden, cwd, tmp);
      var made := fs.Mkdir(dir, true, true);
      if made.Fail? {
        return Failure(made.error);
      }
      MkdirEffect(old(fs.nodes), dir, true, true);
      ghost var afterDir := fs.nodes;
      MkdirBothEffect(afterDir, dir + ["blobs"], dir + [symlinksDir]);
      var callback := if entryDir.Some? then Some(Custom(entryDir.value)) else None;
      var managed := CachePathManager.New(fs, dir, symlinksDir, nested, trimArg, callback);
      if managed.Failure? {
        return Failure(managed.error);
      }
      var pathManager := managed.value;
      ghost var afterManager := fs.nodes;
      var symlinkManager := new SymlinkManager.SymlinkManager(symlinkName);
      var cacheIdent := if cacheKey.Some? then CustomIdent(cacheKey.value) else DefaultIdent;
      made := fs.Mkdir(dir + ["metadata"], true, true);
      if made.Fail? {
        return Failure(made.error);
      }
      MkdirEffect(afterManager, dir + ["metadata"], true, true);
      var c := new PolarsCache(fs, dir, pathManager, symlinkManager, cacheIdent, sha256, stored);
      r := Success(c);
    }

    /** `_get_cache_key`: the SHA-256 hex digest of the UTF-8 ident; a custom
        `cache_key` callback replaces only the ident, the digest is kept. */
    function GetCacheKey(func: FuncId, args: Args): (key: HexDigest)
      ensures cacheIdent.DefaultIdent? ==> key == sha256(Utf8Encode(DefaultCacheIdent(func, args)))
      ensures cacheIdent.CustomIdent? ==> key == sha256(Utf8Encode(cacheIdent.f(func, args)))
    {
      sha256(Utf8Encode(IdentOf(cacheIdent, func, args)))
    }

    /** `symlinks_dir or self.path_manager.symlinks_dir_name`: an empty
        override falls back too. */
    function TempSymlinksDir(o: Overrides): string {
      if o.symlinksDir.Some? && o.symlinksDir.value != "" then o.symlinksDir.value else pathManager.symlinksDirName
    }

    function TempNested(o: Overrides): bool {
      if o.nested.Some? then o.nested.value else pathManager.nested
    }

    function TempTrimArg(o: Overrides): int {
      if o.trimArg.Some? then o.trimArg.value else pathManager.trimArg
    }

    /** The readable directory the wrapper links a call's result into. The
        temporary manager of the override branch is handed the instance's
        callback, so its own `trim_arg` never reaches the entry name. */
    function LinkDir(o: Overrides, func: FuncId, args: Args): (dir: Path)
      ensures !AnyOverride(o) ==>
        dir == Paths.FunctionDir(pathManager.readableDir, pathManager.nested, func)
               + [EntryOf(pathManager.entryDirCallback, func, args)]
      ensures AnyOverride(o) ==>
        dir == Paths.FunctionDir(cacheDir + [TempSymlinksDir(o)], TempNested(o), func)
               + [EntryOf(pathManager.entryDirCallback, func, args)]
    {
      if AnyOverride(o) then
        Paths.FunctionDir(cacheDir + [TempSymlinksDir(o)], TempNested(o), func) + [EntryOf(pathManager.entryDirCallback, func, args)]
      else
        Paths.FunctionDir(pathManager.readableDir, pathManager.nested, func) + [EntryOf(pathManager.entryDirCallback, func, args)]
    }

    /** The link name source in force: the override's, else the instance's. */
    function LinkName(o: Overrides, func: FuncId, args: Args, result: Frame, key: string): Result<string, Error> {
      var source := if o.symlinkName.Some? then o.symlinkName else symlinkManager.symlinkName;
      Symlinks.GetSymlinkName(ConfigDataclasses.SymlinkConfig(source), func, args, result, key)
    }

    /** The outcome of the wrapper's link step, and the tree after it, when
        it starts on the tree `nodes`. With any override, the temporary
        manager's two `mkdir` calls come first and their error ends the step.
        Then the readable directory is made with its parents, the link name
        is resolved, and the guarded link is placed. */
    function LinkEffect(nodes: map<Path, Node>, o: Overrides, func: FuncId, args: Args, result: Frame,
                        key: string, linkAllowed: bool): (Outcome<Error>, map<Path, Node>)
    {
      var (prep, prepared) :=
        if AnyOverride(o) then MkdirBoth(nodes, cacheDir + ["blobs"], cacheDir + [TempSymlinksDir(o)])
        else (Pass, nodes);
      var dir := LinkDir(o, func, args);
      var made := MkdirOutcome(prepared, dir, true, true);
      var name := LinkName(o, func, args, result, key);
      if prep.Fail? then (prep, prepared)
      else if made.Fail? then (made, prepared)
      else if name.Failure? then (Fail(name.error), MkdirAll(prepared, dir))
      else (Pass, Symlinks.PlaceLink(MkdirAll(prepared, dir), dir + [name.value],
                                     RelPath(pathManager.GetParquetPath(key), dir), linkAllowed))
    }

    /** A link step that passes with links allowed, where the link path was
        free, leaves there a link that leads from its directory to the blob. */
    lemma LinkPlaced(nodes: map<Path, Node>, o: Overrides, func: FuncId, args: Args, result: Frame, key: string)
      requires WellFormed(nodes)
      requires LinkName(o, func, args, result, key).Success?
      requires LinkEffect(nodes, o, func, args, result, key, true).0.Pass?
      requires LinkDir(o, func, args) + [LinkName(o, func, args, result, key).value] !in nodes
      ensures var dir := LinkDir(o, func, args);
        var link := dir + [LinkName(o, func, args, result, key).value];
        var after := LinkEffect(nodes, o, func, args, result, key, true).1;
        && link in after && after[link] == Link(RelPath(pathManager.GetParquetPath(key), dir))
        && Resolve(dir, after[link].target) == Normalize(pathManager.GetParquetPath(key))
    {
      var dir := LinkDir(o, func, args);
      var link := dir + [LinkName(o, func, args, result, key).value];
      var prepared := if AnyOverride(o) then MkdirBoth(nodes, cacheDir + ["blobs"], cacheDir + [TempSymlinksDir(o)]).1
                      else nodes;
      if AnyOverride(o) {
        MkdirBothEffect(nodes, cacheDir + ["blobs"], cacheDir + [TempSymlinksDir(o)]);
        Paths.FunctionDirDecodes(cacheDir + [TempSymlinksDir(o)], TempNested(o), func);
        assert |link| > |cacheDir| + 1;
      }
      assert link !in prepared;
      MkdirEffect(prepared, dir, true, true);
      var mid := MkdirAll(prepared, dir);
      assert !(link <= dir);
      assert Parent(link) == dir;
      assert CreateError(mid, link) == None;
      RelPathResolves(pathManager.GetParquetPath(key), dir);
    }

    /** The link step of the wrapper, once the blob is stored: with any
        override, temporary managers are built (their `mkdir` calls may fail)
        and used; otherwise the instance's managers are. Its outcome and tree
        are those of `LinkEffect`; only directories and the one link to the
        blob are added, and a bad link name is an error. */
    method LinkResult(func: FuncId, args: Args, key: string, result: Frame, overrides: Overrides, linkAllowed: bool)
      returns (linked: Outcome<Error>)
      requires Valid()
      modifies fs
      ensures Valid()
      ensures (linked, fs.nodes) == LinkEffect(old(fs.nodes), overrides, func, args, result, key, linkAllowed)
    {
      if AnyOverride(overrides) {
        var made := CachePathManager.New(fs, cacheDir, TempSymlinksDir(overrides), TempNested(overrides),
                                         TempTrimArg(overrides), Some(pathManager.entryDirCallback));
        if made.Failure? {
          linked := Fail(made.error);
          return;
        }
        var tempPathManager := made.value;
        var tempSymlinkManager := new SymlinkManager.SymlinkManager(
          if overrides.symlinkName.Some? then overrides.symlinkName else symlinkManager.symlinkName);
        var readableDir := tempPathManager.GetReadablePath(func, args);
        var blobPath := tempPathManager.GetParquetPath(key);
        assert readableDir == LinkDir(overrides, func, args) && blobPath == pathManager.GetParquetPath(key);
        linked := tempSymlinkManager.CreateSymlink(fs, func, args, key, result, readableDir, blobPath, linkAllowed);
      } else {
        var readableDir := pathManager.GetReadablePath(func, args);
        var blobPath := pathManager.GetParquetPath(key);
        linked := symlinkManager.CreateSymlink(fs, func, args, key, result, readableDir, blobPath, linkAllowed);
      }
    }

    /** The link step keeps the tree well formed, adds only directories and
        the link to the blob, fails on a bad link name, and reports only
        `mkdir` errors or that name error. */
    lemma LinkEffectGrows(nodes: map<Path, Node>, o: Overrides, func: FuncId, args: Args, result: Frame,
                          key: string, linkAllowed: bool)
      requires WellFormed(nodes)
      ensures var (linked, after) := LinkEffect(nodes, o, func, args, result, key, linkAllowed);
        var name := LinkName(o, func, args, result, key);
        && WellFormed(after)
        && Grows(nodes, after, LinkDir(o, func, args), pathManager.GetParquetPath(key))
        && (name.Failure? ==> linked.Fail?)
        && (linked.Fail? ==>
              || linked.error == FileExistsError || linked.error == FileNotFoundError
              || linked.error == NotADirectoryError
              || (name.Failure? && linked.error == name.error))
    {
      var linkDir := LinkDir(o, func, args);
      var blob := pathManager.GetParquetPath(key);
      var name := LinkName(o, func, args, result, key);
      var prepared := nodes;
      if AnyOverride(o) {
        var both := MkdirBoth(nodes, cacheDir + ["blobs"], cacheDir + [TempSymlinksDir(o)]);
        MkdirBothEffect(nodes, cacheDir + ["blobs"], cacheDir + [TempSymlinksDir(o)]);
        if both.0.Fail? {
          MkdirFailureBoth(nodes, cacheDir + ["blobs"], cacheDir + [TempSymlinksDir(o)]);
        }
        prepared := both.1;
      }
      var made := MkdirOutcome(prepared, linkDir, true, true);
      var mid := MkdirAll(prepared, linkDir);
      var after := if made.Fail? then prepared
                   else if name.Failure? then mid
                   else Symlinks.PlaceLink(mid, linkDir + [name.value], RelPath(blob, linkDir), linkAllowed);
      var r := if made.Fail? then made else if name.Failure? then Fail(name.error) else Pass;
      GrowsByCreateSymlink(prepared, after, r, name, linkDir, blob, linkAllowed);
      if made.Pass? {
        MkdirEffect(prepared, linkDir, true, true);
        if name.Success? {
          var link := linkDir + [name.value];
          assert Parent(link) == linkDir;
          if after != mid {
            CreatePreserves(mid, link, Link(RelPath(blob, linkDir)));
          }
        }
      }
      GrowsTransitive(nodes, prepared, after, linkDir, blob);
    }

    /** The wrapper `cache_polars` puts around a function, for one call whose
        function would return `computed`. A hit answers from the blob
        without calling the function and changes nothing. Otherwise a stale
        record is dropped and the function is called: a value that is no
        frame is returned as it is; a frame is written to its blob and
        recorded, so the next call hits and gets it back, and then linked
        from the readable tree, whose errors reach the caller. */
    method Call(func: FuncId, args: Args, computed: Frame, overrides: Overrides, linkAllowed: bool)
      returns (r: Result<Frame, Error>, invoked: bool)
      requires Valid()
      modifies this, fs
      ensures Valid()
      ensures var key := GetCacheKey(func, args);
        var blob := pathManager.GetParquetPath(key);
        var written := WriteOutcome(old(fs.nodes), blob);
        var name := LinkName(overrides, func, args, computed, key);
        match Cached(old(metadata), old(fs.nodes), key)
        case Some(loaded) =>
          && !invoked && r == loaded && metadata == old(metadata) && fs.nodes == old(fs.nodes)
        case None =>
          && invoked
          && (computed.Other? ==>
                r == Success(computed) && metadata == old(metadata) - {key} && fs.nodes == old(fs.nodes))
          && (!computed.Other? && written.Fail? ==>
                r == Failure(written.error) && metadata == old(metadata) - {key} && fs.nodes == old(fs.nodes))
          && (!computed.Other? && written.Pass? ==>
                && metadata == old(metadata)[key := Record(blob, computed.Lazy?)]
                && Cached(metadata, fs.nodes, key) == Some(Success(computed))
                && Grows(old(fs.nodes)[blob := File(computed.data)], fs.nodes, LinkDir(overrides, func, args), blob)
                && (var (linked, after) :=
                      LinkEffect(old(fs.nodes)[blob := File(computed.data)], overrides, func, args, computed, key, linkAllowed);
                    && fs.nodes == after
                    && r == (if linked.Pass? then Success(computed) else Failure(linked.error)))
                && (r.Success? ==> r.value == computed)
                && (name.Failure? ==> r.Failure?)
                && (r.Failure? ==>
                      || r.error == FileExistsError || r.error == FileNotFoundError || r.error == NotADirectoryError
                      || (name.Failure? && r.error == name.error)))
    {
      var key := GetCacheKey(func, args);
      if key in metadata {
        var record := metadata[key];
        if fs.Exists(record.path) {
          r := Load(fs.nodes[record.path], record.isLazy);
          invoked := false;
          return;
        }
        metadata := metadata - {key};
      }
      assert metadata == old(metadata) - {key};
      invoked := true;
      var result := computed;
      if result.Other? {
        r := Success(result);
        return;
      }
      var isLazy := result.Lazy?;
      var parquetPath := pathManager.GetParquetPath(key);
      var saved := fs.WriteFile(parquetPath, result.data);
      if saved.Fail? {
        r := Failure(saved.error);
        return;
      }
      metadata := metadata[key := Record(parquetPath, isLazy)];
      assert metadata == old(metadata)[key := Record(parquetPath, isLazy)];
      ghost var stored := fs.nodes;
      var linked := LinkResult(func, args, key, result, overrides, linkAllowed);
      LinkEffectGrows(stored, overrides, func, args, result, key, linkAllowed);
      if linked.Fail? {
        r := Failure(linked.error);
        return;
      }
      r := Success(result);
    }

    /** The metadata store may drop an entry between calls (eviction). */
    method Evict(key: string)
      modifies this
      ensures metadata == old(metadata) - {key}
    {
      metadata := metadata - {key};
    }

    /** The blob loop of `clear`: each `*.parquet` in `blobs` is unlinked; a
        directory among them stops the loop with an error. */
    method RemoveBlobs() returns (r: Outcome<Error>)
      requires Valid()
      modifies fs
      ensures Valid()
      ensures var blobs := ParquetFiles(old(fs.nodes), pathManager.parquetDir);
        && (r.Fail? <==> exists q :: q in blobs && old(fs.nodes)[q] == Dir)
        && (r.Fail? ==> r == Fail(IsADirectoryError))
        && (r.Pass? ==> fs.nodes == old(fs.nodes) - blobs)
        && (r.Fail? ==>
              var removed := old(fs.nodes).Keys - fs.nodes.Keys;
              && removed <= blobs && (forall q :: q in removed ==> old(fs.nodes)[q] != Dir)
              && fs.nodes == old(fs.nodes) - removed)
    {
      var blobs := ParquetFiles(fs.nodes, pathManager.parquetDir);
      ghost var start := fs.nodes;
      var todo := blobs;
      r := Pass;
      while todo != {}
        invariant todo <= blobs
        invariant r == Pass
        invariant fs.Valid()
        invariant forall q :: q in blobs - todo ==> start[q] != Dir
        invariant fs.nodes == start - (blobs - todo)
        decreases |todo|
      {
        var q :| q in todo;
        r := fs.Unlink(q);
        if r.Fail? {
          RemovedKeys(start, blobs - todo);
          return;
        }
        todo := todo - {q};
      }
      assert blobs - todo == blobs;
    }

    /** The last step of `clear`: a readable directory that exists is
        removed with everything beneath it and made again, empty; a file in
        its place makes the `mkdir` fail. */
    method ResetReadable() returns (r: Outcome<Error>)
      requires Valid()
      modifies fs
      ensures Valid()
      ensures var readable := pathManager.readableDir;
        && (readable !in old(fs.nodes) ==> r == Pass && fs.nodes == old(fs.nodes))
        && (IsDir(old(fs.nodes), readable) ==>
              r == Pass && fs.nodes == Without(old(fs.nodes), readable)[readable := Dir])
        && (readable in old(fs.nodes) && !IsDir(old(fs.nodes), readable) ==>
              r == Fail(FileExistsError) && fs.nodes == old(fs.nodes))
    {
      var readable := pathManager.readableDir;
      if fs.Exists(readable) {
        ghost var before := fs.nodes;
        fs.RemoveTree(readable);
        if IsDir(before, readable) {
          assert Parent(readable) in before;
          assert !(readable <= Parent(readable));
        }
        r := fs.Mkdir(readable, false, true);
      } else {
        r := Pass;
      }
    }

    /** `clear`: the metadata is emptied, every `*.parquet` in `blobs` is
        unlinked (one that is a directory stops it with an error), and a
        readable directory that exists is removed and made again, empty. */
    method Clear() returns (r: Outcome<Error>)
      requires Valid()
      modifies this, fs
      ensures Valid()
      ensures metadata == map[]
      ensures var blobs := ParquetFiles(old(fs.nodes), pathManager.parquetDir);
        var readable := pathManager.readableDir;
        && ((exists q :: q in blobs && old(fs.nodes)[q] == Dir) ==>
              var removed := old(fs.nodes).Keys - fs.nodes.Keys;
              && r == Fail(IsADirectoryError)
              && removed <= blobs && (forall q :: q in removed ==> old(fs.nodes)[q] != Dir)
              && fs.nodes == old(fs.nodes) - removed)
        && ((forall q :: q in blobs ==> old(fs.nodes)[q] != Dir) ==>
              && ParquetFiles(fs.nodes, pathManager.parquetDir) == {}
              && (readable !in old(fs.nodes) ==> r == Pass && fs.nodes == old(fs.nodes) - blobs)
              && (IsDir(old(fs.nodes), readable) ==>
                    && r == Pass && IsDir(fs.nodes, readable)
                    && fs.nodes == Without(old(fs.nodes) - blobs, readable)[readable := Dir])
              && (readable in old(fs.nodes) && !IsDir(old(fs.nodes), readable) ==>
                    r == Fail(FileExistsError) && fs.nodes == old(fs.nodes) - blobs))
    {
      metadata := map[];
      ghost var blobs := ParquetFiles(fs.nodes, pathManager.parquetDir);
      r := RemoveBlobs();
      if r.Fail? {
        return;
      }
      ghost var emptied := fs.nodes;
      assert ParquetFiles(emptied, pathManager.parquetDir) == {};
      assert pathManager.readableDir !in blobs;
      r := ResetReadable();
      assert forall q :: q in fs.nodes ==> q in emptied || q == pathManager.readableDir;
    }
  }

  /** The keys a map loses when the keys `gone`, all present, are taken out. */
  lemma RemovedKeys(nodes: map<Path, Node>, gone: set<Path>)
    requires gone <= nodes.Keys
    ensures nodes.Keys - (nodes - gone).Keys == gone
  {
  }

  /** The errors the temporary manager's two `mkdir` calls can report. */
  lemma MkdirFailureBoth(nodes: map<Path, Node>, first: Path, second: Path)
    requires MkdirBoth(nodes, first, second).0.Fail?
    ensures var e := MkdirBoth(nodes, first, second).0.error;
      e == FileExistsError || e == FileNotFoundError || e == NotADirectoryError
  {
    if MkdirOutcome(nodes, first, false, true).Fail? {
      MkdirFailure(nodes, first, false, true);
    } else {
      MkdirFailure(MkdirAll(nodes, first), second, false, true);
    }
  }

  /** Overrides that differ only in `trim_arg` link a call into the same
      place: the entry name is trimmed at the instance's `trim_arg`. */
  lemma TrimOverrideIgnored(c: PolarsCache, o: Overrides, t: int, func: FuncId, args: Args)
    requires AnyOverride(o)
    ensures c.LinkDir(o, func, args) == c.LinkDir(o.(trimArg := Some(t)), func, args)
    ensures c.pathManager.entryDirCallback.DefaultOf? ==>
      c.LinkDir(o, func, args)[|c.LinkDir(o, func, args)| - 1]
        == Paths.EntryDirName(args, c.pathManager.entryDirCallback.ownerTrimArg)
  {
  }

  // ---------------------------------------------------------------------------
  // The module-level handle

  /** What `cache()` returns: the decorator of an instance with the given overrides. */
  datatype Decorating = Decorating(instance: PolarsCache, overrides: Overrides)

  /** `_global_cache`: `None` stands for the dummy cache it starts as. */
  class GlobalCache {
    const fs: FileSystem
    var current: Option<PolarsCache>

    predicate Valid()
      reads this, fs
    {
      fs.Valid() && (current.Some? ==> current.value.fs == fs && current.value.Valid())
    }

    constructor (fs: FileSystem)
      requires fs.Valid()
      ensures Valid() && this.fs == fs && current == None
    {
      this.fs := fs;
      current := None;
    }

    /** `cache(...)`: the handle is replaced by a new instance when it is
        still the dummy or a different `cache_dir` is given, and kept
        otherwise. The decorator returned carries `symlinks_dir`, `nested`
        and `trim_arg` as overrides, and `symlink_name` only when one is
        given; otherwise the current instance's link name applies. A failed
        construction leaves the handle as it was. */
    method Cache(sha256: seq<byte> -> HexDigest, stored: map<string, Record>, cwd: Path, tmp: Path,
                 cacheDir: Option<Path> := None, useTmp: bool := false, hidden: bool := true,
                 symlinksDir: string := "functions", nested: bool := true, trimArg: int := 50,
                 symlinkName: Option<string> := None)
      returns (r: Result<Decorating, Error>)
      requires Valid()
      modifies this, fs
      ensures Valid()
      ensures var replace := old(current).None? || (cacheDir.Some? && old(current).value.cacheDir != cacheDir.value);
        var name := if symlinkName.Some? then Some(Literal(symlinkName.value)) else None;
        && (!replace ==> r.Success? && current == old(current) && fs.nodes == old(fs.nodes))
        && (replace && r.Success? ==>
              && current.Some? && fresh(current.value)
              && current.value.cacheDir == ResolveCacheDir(cacheDir, useTmp, hidden, cwd, tmp)
              && current.value.metadata == stored && current.value.sha256 == sha256
              && current.value.cacheIdent == DefaultIdent
              && current.value.pathManager.entryDirCallback == DefaultOf(trimArg)
              && current.value.pathManager.symlinksDirName == symlinksDir
              && current.value.pathManager.nested == nested && current.value.pathManager.trimArg == trimArg
              && current.value.symlinkManager.symlinkName == name)
        && (replace ==>
              (if r.Success? then Pass else Fail(r.error), fs.nodes)
              == OpenEffect(old(fs.nodes), ResolveCacheDir(cacheDir, useTmp, hidden, cwd, tmp), symlinksDir))
        && (r.Failure? ==> replace && current == old(current))
        && (r.Success? ==>
              && current.Some?
              && r.value == Decorating(current.value, Overrides(Some(symlinksDir), Some(nested), Some(trimArg), name))
              && AnyOverride(r.value.overrides))
    {
      var name := if symlinkName.Some? then Some(Literal(symlinkName.value)) else None;
      if current.None? || (cacheDir.Some? && current.value.cacheDir != cacheDir.value) {
        var created := PolarsCache.Open(fs, sha256, stored, cwd, tmp, cacheDir, useTmp, hidden,
                                       symlinksDir, nested, trimArg, name);
        if created.Failure? {
          return Failure(created.error);
        }
        current := Some(created.value);
      }
      r := Success(Decorating(current.value, Overrides(Some(symlinksDir), Some(nested), Some(trimArg), name)));
    }
  }
}
