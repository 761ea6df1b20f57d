# plcache in Dafny

plcache is a disk cache for functions that return polars DataFrames or
LazyFrames. A decorated call is keyed by the SHA-256 of an ident of the
function and its bound arguments:

- **Metadata store.** Maps each key to the blob's path and whether the result was lazy.
- **Blob.** The result is written to `cache_dir/blobs/<key>.parquet`.
- **Readable tree.** A human-readable tree under `cache_dir/<symlinks_dir>/…` gets a relative symlink to the blob.
  - The path has a module directory, a qualname directory and an entry directory whose name is made of the arguments, percent-encoded.

This project models that core and proves its properties.

| file | module | what it models |
|---|---|---|
| `wrappers.dfy` | `Wrappers` | `Option`, `Result`, `Outcome` (the exceptions of the source) |
| `types.dfy` | `Types` | paths as segment sequences, function identity, rendered argument values, frames, errors, link-name sources |
| `percent.dfy` | `PercentEncoding` | `urllib.parse.quote(s, safe="")` over UTF-8, and its inverse |
| `args.dfy` | `ArgOrder` | `sort_args`/`normalise_args`: Python dict merge and `sorted` over bound arguments |
| `filesystem.dfy` | `FileTree` | the directory tree: `mkdir(parents, exist_ok)`, file writes, `symlink_to`, `unlink`, `rmtree(ignore_errors=True)` |
| `relpath.dfy` | `RelPaths` | `os.path.relpath` and lexical resolution of a relative link target |
| `paths.dfy` | `Paths` | the functional helpers of `paths.py` |
| `path_manager.dfy` | `PathManager` | `CachePathManager` |
| `config.dfy` | `ConfigDataclasses` | `PathConfig` (with `__post_init__`) and `SymlinkConfig` |
| `symlinks.dfy` | `Symlinks` | the functional helpers of `symlinks.py`, which hold the single implementation of link placement |
| `symlink_manager.dfy` | `SymlinkManager` | `SymlinkManager`, delegating to `Symlinks` |
| `decorator.dfy` | `Decorator` | cache keys, `PolarsCache` (opening, the wrapper, `clear`) and the global `cache()` handle |

Modelling choices:

- **Filesystem.** A class `FileSystem` whose `nodes` map holds directories, files (each holding the stored table) and links.
  - Every operation of the core that touches the disk is a method on it, with its exact outcome and new state as contract.
  - Well-formedness (the root is a directory; every entry hangs from a directory) is preserved by all of them.
- **Classes.** The classes whose fields the source sets or changes (`CachePathManager`, `PathConfig`, `SymlinkManager`, `PolarsCache` with its metadata map, the global handle) are Dafny classes.
  - Their methods modify the object and the filesystem.
- **Pure helpers.** Pure helpers are functions, with lemmas relating them.
- **Duplicated logic.** The functional helpers and the manager classes share one definition:
  - entry names come from `Paths.EntryDirName`, built by the loop of `Paths.CreateEntryDirName`;
  - link names come from `Symlinks.GetSymlinkName`;
  - link placement comes from `Symlinks.CreateSymlink`.
- **Callers outside the model.** Callers that cannot be seen (the decorated function, callbacks, the digest, the OS's symlink permission) are parameters:
  - the function's return value is `computed`;
  - a callback is a Dafny function value;
  - SHA-256 is a function-valued field typed to 64 lower-case hex digits;
  - whether the OS allows a link is `linkAllowed`.

## Model

| member | source | states |
|---|---|---|
| `PercentEncoding.Quote` | src/plcache/paths.py:21 | encoding never shortens a string and is empty only for the empty string |
| `PercentEncoding.UnquoteQuote` | src/plcache/paths.py:20-21 | percent-decoding the encoded value gives back the value: encoding loses nothing |
| `PercentEncoding.QuoteWellEscaped` | src/plcache/paths.py:21 | the encoding consists only of unreserved characters and `%XX` triplets of upper-case hex |
| `PercentEncoding.QuoteHasNoSeparator` | src/plcache/paths.py:21-22 | an encoded value holds neither `/` nor `=` |
| `PercentEncoding.QuoteIdentity` | src/plcache/paths.py:41-46 | encoding leaves a string unchanged exactly when all its characters are unreserved |
| `PercentEncoding.Utf8` | src/plcache/paths.py:21 | a character encodes to 1–4 bytes, and to one byte exactly when it is ASCII |
| `ArgOrder.SortByKey` | src/plcache/_args.py:54 | the kwargs items are a permutation of the input, sorted by key when the keys are distinct |
| `ArgOrder.UnpackedKwargs` | src/plcache/_args.py:46-50 | the unpacked `**kwargs` dict (empty when no key outside the signature is bound) has distinct keys |
| `ArgOrder.SortArgsLayout` | src/plcache/_args.py:41-55 | the result's keys are the signature's non-`**kwargs` parameters in signature order, then the kwargs keys in ascending order, with no duplicates, and nothing else |
| `ArgOrder.SortArgsValues` | src/plcache/_args.py:52-55 | every key gets its kwargs value when the kwargs dict has that key (dict merge: later wins), else its bound value |
| `ArgOrder.SortArgsWithoutKwargs` | src/plcache/_args.py:48-50 | with nothing bound outside the signature, the result is the bound parameters in signature order with their values |
| `ArgOrder.SortArgsIgnoresKwargsOrder` | src/plcache/_args.py:58-63 | reordering the `**kwargs` items gives the same sorted arguments, so the same cache key |
| `ArgOrder.SortArgsExample` | src/plcache/_args.py:27-38 | the documented example `f(a, b, **kw)` with `b=2, a=1, d=4, c=3` gives `a, b, c, d` = `1, 2, 3, 4` |
| `ArgOrder.NormaliseArgs` | src/plcache/_args.py:58-68 | without sorting, the bound arguments come back unchanged |
| `FileTree.MkdirEffect` | src/plcache/symlinks.py:55 | a successful `mkdir` leaves the path a directory, keeps every existing entry, adds only directories on the way to the path and keeps the tree well formed |
| `FileTree.MkdirExisting` | src/plcache/path_manager.py:41 | with `exist_ok`, an existing directory is accepted and nothing changes |
| `FileTree.MkdirNoParents` | src/plcache/path_manager.py:44 | without `parents`, `mkdir` of a missing path succeeds exactly when its parent is a directory |
| `FileTree.MkdirBothEffect` | src/plcache/path_manager.py:39-44 | the two `exist_ok` mkdirs keep existing entries, add only those two directories, leave both directories on success, and change nothing when both exist |
| `FileTree.Without` | src/plcache/decorator.py:293 | the tree after removing a path keeps exactly the entries not at or beneath it, each with its value |
| `FileTree.MkdirParentsPasses` | src/plcache/decorator.py:83 | `mkdir(parents=True, exist_ok=True)` fails exactly when a non-directory stands at the path or at one of its ancestors |
| `FileTree.ChildMkdir` | src/plcache/path_manager.py:39-44 | inside an existing directory, an `exist_ok` `mkdir` of a child fails exactly when a non-directory already has its name |
| `FileTree.FileSystem.Mkdir` | src/plcache/symlink_manager.py:51 | outcome as `pathlib` decides it (`FileExistsError`, `FileNotFoundError`, `NotADirectoryError`); on success the path and its missing ancestors are added |
| `FileTree.FileSystem.WriteFile` | src/plcache/decorator.py:134-139 | writing a blob fails on a directory or a missing parent, otherwise stores the data at the path |
| `FileTree.FileSystem.Symlink` | src/plcache/symlink_manager.py:63 | a link is created only where nothing exists and the parent is a directory |
| `FileTree.FileSystem.Unlink` | src/plcache/decorator.py:288 | removes a file or link; a directory gives `IsADirectoryError`, a missing path `FileNotFoundError` |
| `FileTree.FileSystem.RemoveTree` | src/plcache/decorator.py:293 | a directory goes with everything beneath it; anything else is left, errors ignored |
| `RelPaths.Normalize` | src/plcache/symlinks.py:61 | the normalised path has no empty, `.` or `..` segment and is never longer than the input |
| `RelPaths.RelPath` | src/plcache/symlinks.py:61 | the relative path is never empty and made of `..` and entry names (or is `.`); for a target above the start it is one `..` per level, or `.` for the start itself |
| `RelPaths.RelPathResolves` | src/plcache/symlink_manager.py:59-63 | the relative target, followed from the link's directory, leads to the (normalised) blob, for every blob and directory |
| `RelPaths.RelPathResolvesNormal` | src/plcache/symlink_manager.py:61 | for a normalised blob path, following the link gives exactly the blob path |
| `Paths.PySliceTo` | src/plcache/paths.py:20 | `s[:n]` is a prefix of `s` of length `n` clipped to `s`, or `len(s)+n` clipped at 0 for negative `n` |
| `Paths.EntryParts` | src/plcache/paths.py:18-22 | one `key=encoded` part per argument, in argument order |
| `Paths.CreateEntryDirName` | src/plcache/paths.py:14-23 | the loop builds exactly the parts joined by `_`, or `no_args` |
| `Paths.NoArgsExactly` | src/plcache/paths.py:23 | the name is `no_args` exactly when there are no arguments |
| `Paths.EntryPartDecodes` | src/plcache/paths.py:20-22 | each part splits at its first `=` into the key and a value that decodes to the first `trim_arg` characters of the argument's text |
| `Paths.EntryDirNameIsSegment` | src/plcache/paths.py:21-23 | with keys free of `/`, the entry name is one path segment |
| `Paths.GetParquetPath` | src/plcache/paths.py:26-28 | the blob lies directly in `cache_dir/blobs` |
| `Paths.ParquetPathInjective` | src/plcache/paths.py:28 | distinct keys have distinct blobs |
| `Paths.FunctionDirDecodes` | src/plcache/paths.py:40-47 | the function directories decode back to module and qualname (nested) or `module.qualname` (flat) |
| `Paths.CallEntryDirCallback` | src/plcache/paths.py:49 | the callback's name: `create_entry_dir_name` at the fixed `trim_arg`, or the user's |
| `Paths.GetReadablePath` | src/plcache/paths.py:31-50 | the readable path is the function directory under `cache_dir/symlinks_dir_name`, then the callback's entry name |
| `Paths.ReadableOutsideBlobs` | src/plcache/paths.py:26-35 | unless the readable directory is named `blobs`, readable paths never lie inside the blob store or above a blob |
| `PathManager.CachePathManager.constructor` | src/plcache/path_manager.py:33-37 | fields as given; a missing callback becomes the manager's own default |
| `PathManager.CachePathManager.New` | src/plcache/path_manager.py:16-44 | on success, fields as given and `blobs` and the readable directory exist; outcome and tree are those of the two `exist_ok` mkdirs |
| `PathManager.CachePathManager.DefaultEntryDirName` | src/plcache/path_manager.py:46-64 | the same name as `create_entry_dir_name` at this manager's `trim_arg` |
| `PathManager.CachePathManager.GetParquetPath` | src/plcache/path_manager.py:66-75 | the same blob as the functional `get_parquet_path` |
| `PathManager.CachePathManager.GetReadablePath` | src/plcache/path_manager.py:77-103 | function directory under the readable directory, then the stored callback's entry name |
| `PathManager.ReadablePathsAgree` | src/plcache/config_dataclasses.py:28-31 | a manager and a path configuration with the same settings give every call the same readable path |
| `ConfigDataclasses.PathConfig.constructor` | src/plcache/config_dataclasses.py:16-24 | fields as given, with the dataclass defaults |
| `ConfigDataclasses.PathConfig.PostInit` | src/plcache/config_dataclasses.py:26-35 | a missing callback becomes `create_entry_dir_name` at `trim_arg`, a given one is kept; then the two `exist_ok` mkdirs, with their outcome and tree |
| `ConfigDataclasses.NewPathConfig` | src/plcache/config_dataclasses.py:16-35 | construction then `__post_init__`; an error of either `mkdir` means no configuration |
| `Symlinks.GetSymlinkName` | src/plcache/symlinks.py:18-42 | success never gives a blank name; a literal is used iff it is non-blank (else `ValueError`); a callback's result is used iff it is a non-blank string (a non-string is `TypeError`, a blank one `ValueError`); no name gives `output.parquet` |
| `Symlinks.FirstWriterWins` | src/plcache/symlinks.py:62-63 | an existing entry at the link path is never replaced |
| `Symlinks.PlacedLinkResolves` | src/plcache/symlinks.py:58-63 | only the link path changes; the link is made when allowed and absent; it resolves from its directory to the blob |
| `Symlinks.CreateSymlink` | src/plcache/symlinks.py:45-66 | a failed `mkdir` propagates with nothing changed; a name error propagates after the `mkdir`; otherwise `Pass`, the directory exists and the link is placed (a refused link is swallowed) |
| `SymlinkManager.SymlinkManager.constructor` | src/plcache/symlink_manager.py:20-26 | stores the link name source |
| `SymlinkManager.SymlinkManager.GetSymlinkName` | src/plcache/symlink_manager.py:69-107 | same resolution as the functional helper for the stored name: never blank, default `output.parquet` |
| `SymlinkManager.SymlinkManager.CreateSymlink` | src/plcache/symlink_manager.py:28-67 | same effect and errors as the functional `create_symlink` |
| `Decorator.Utf8Encode` | src/plcache/decorator.py:117 | the UTF-8 encoding has between one and four bytes per character |
| `Decorator.DefaultIdentSeparatesArgs` | src/plcache/decorator.py:26-36 | two calls of one function share a default ident only if their arguments print the same |
| `Decorator.StoreThenLoad` | src/plcache/decorator.py:155-170 | a stored and recorded frame loads back as the same frame, eager or lazy |
| `Decorator.GrownLinksResolve` | src/plcache/decorator.py:255-270 | every link the wrapper adds resolves from its directory to the blob |
| `Decorator.GrowsByCreateSymlink` | src/plcache/decorator.py:259-270 | the link step adds only directories and the link, and fails exactly when its `mkdir` or the name fails |
| `Decorator.ResolveCacheDir` | src/plcache/decorator.py:75-82 | a given directory is used; otherwise `.polars_cache` (hidden) or `polars_cache` under the temp or working directory |
| `Decorator.ParquetFiles` | src/plcache/decorator.py:287 | exactly the children of `blobs` whose names end in `.parquet` |
| `Decorator.PolarsCache.constructor` | src/plcache/decorator.py:82-99 | stores the settings and managers |
| `Decorator.OpenSucceedsIff` | src/plcache/decorator.py:75-101 | opening fails exactly when a non-directory stands on the way to the cache directory or at `blobs`, the readable directory or `metadata`; on success all four are directories; existing entries are kept and only those directories are added |
| `Decorator.PolarsCache.Open` | src/plcache/decorator.py:42-101 | the outcome and the tree are those of the three `mkdir` steps in order, each error ending the construction; on success the four directories exist and the settings are as given; no existing entry changes; reopening an existing cache succeeds and changes nothing |
| `Decorator.PolarsCache.GetCacheKey` | src/plcache/decorator.py:103-117 | the digest of the UTF-8 ident; a `cache_key` callback replaces only the ident |
| `Decorator.PolarsCache.LinkDir` | src/plcache/decorator.py:232-270 | with no override, the instance's readable path; with any override, the temporary settings (`symlinks_dir` by `or`) but still the instance's entry callback |
| `Decorator.PolarsCache.LinkResult` | src/plcache/decorator.py:231-270 | the outcome and the tree are exactly those of `LinkEffect`: the temporary manager's mkdirs when overridden, the readable directory with parents, the link name, then the guarded link |
| `Decorator.PolarsCache.LinkEffectGrows` | src/plcache/decorator.py:231-270 | the link step keeps the tree well formed, adds only directories and links in the call's readable directory to the blob, fails on a bad link name, and otherwise reports only `mkdir` errors |
| `Decorator.PolarsCache.LinkPlaced` | src/plcache/symlinks.py:60-66 | when the step passes with links allowed and the link path was free, the link is there afterwards and leads from its directory to the blob |
| `Decorator.PolarsCache.Call` | src/plcache/decorator.py:198-272 | a hit returns the loaded blob without calling the function and changes nothing; a stale record is dropped; a non-frame is returned with no blob, record or link; a write error propagates; a frame is stored and recorded so the next lookup returns it, then linked as `LinkEffect` says on the tree holding the blob; the call returns the frame exactly when that link step passes and its error otherwise |
| `Decorator.PolarsCache.Evict` | src/plcache/decorator.py:99-101 | the metadata store loses one entry |
| `Decorator.PolarsCache.RemoveBlobs` | src/plcache/decorator.py:286-288 | every `*.parquet` in `blobs` is removed; it fails with `IsADirectoryError` exactly when one of them is a directory, having then removed only some of the non-directory blobs and changed nothing else |
| `Decorator.PolarsCache.ResetReadable` | src/plcache/decorator.py:289-294 | an existing readable directory is emptied and kept; a file in its place gives `FileExistsError`; an absent one stays absent |
| `Decorator.PolarsCache.Clear` | src/plcache/decorator.py:278-294 | the metadata is empty; a directory among the blobs stops it with `IsADirectoryError` after removing only some non-directory blobs; otherwise no `*.parquet` is left and the readable directory, if it was one, exists and is empty |
| `Decorator.TrimOverrideIgnored` | src/plcache/decorator.py:237-248 | an overridden `trim_arg` does not change where a call is linked: the entry name is trimmed at the instance's `trim_arg` |
| `Decorator.GlobalCache.constructor` | src/plcache/decorator.py:298 | the handle starts as the dummy |
| `Decorator.GlobalCache.Cache` | src/plcache/decorator.py:302-368 | the handle is replaced iff it is the dummy or a different `cache_dir` is given; a failed construction keeps the old handle; on replacement the outcome and the tree are those of opening the new cache, which uses the given digest, the default ident and entry names trimmed at `trim_arg`, and otherwise the tree is unchanged; the decorator returned carries `symlinks_dir`, `nested` and `trim_arg` as overrides, and `symlink_name` only when one is given; otherwise the current instance's link name applies (the kept instance's, if the handle was not replaced) |

## Left out

- Polars I/O is not modelled. A blob holds the table of the result; writing, sinking, reading and scanning parquet are not modelled, and neither are their own errors.
- The diskcache metadata store is modelled as the map `metadata`, which `Evict` may shrink.
  - Its internals, the size limit and eviction policy, and `_parse_size` (`_parse_sizes.py` is not part of this model) are left out.
  - Records stored on disk before opening are the `stored` parameter of `Open`.
  - The store creates `metadata` itself. `Decorator.OpenEffect` takes this as `mkdir(parents=True, exist_ok=True)`. A file at `metadata` gives `FileExistsError` in the model; in the source it fails later, inside the store's database layer, with another error. The store's own database files are not modelled.
- The SHA-256 digest is a function-valued field whose results are 64 lower-case hex digits. It is not implemented.
- `inspect.signature`, `bind` and `apply_defaults`, and `str()`/`repr()` of argument values are foreign.
  - The cache takes arguments as already-normalised `(name, ArgValue(text, repr))` pairs.
  - `sort_args` is modelled on its own over an abstract signature.
- Python's dict `repr` escapes quotes inside keys. `Decorator.DictRepr` writes keys between single quotes without escaping.
- Following symbolic links is not modelled. `exists()` of a path holding a link counts the link itself, and reading a blob path that holds a link fails.
- Pathlib's splitting of a segment that contains `/` is not modelled. Entry and link names are single segments (see `Paths.EntryDirNameIsSegment`).
- Pathlib drops `""` and `"."` segments when joining, and the operating system reads `..` as the parent. The model joins every segment as a new child, so the special segments `""`, `"."` and `".."` are not modelled. This affects the members below.
- `Decorator.PolarsCache.Open`: a `symlinks_dir` of `""` or `"."` makes the source's readable directory the cache directory itself. The model treats it as a separate child directory.
- `Decorator.PolarsCache.Clear`: with such a `symlinks_dir`, the source removes the whole cache directory, `blobs` and `metadata` included. The model removes only the separate child.
- `Symlinks.GetSymlinkName`: `"."` and `".."` are accepted as non-blank names, as in the source. There they name an existing directory, so no link is made.
- `Symlinks.CreateSymlink`: the model places a link named `"."` or `".."` as a new child of the readable directory. The source makes no link for those names.
- `os.path.relpath` of relative paths against the working directory is not modelled. The cache directory is taken as an absolute segment path. Resolution of a link target is lexical (`RelPaths.Resolve`).
- Lone surrogates in strings are not modelled. `PercentEncoding.Utf8` encodes Unicode scalar values.
- The OS's permission to create links is the `linkAllowed` parameter. Any other error inside the swallowing `try` is not modelled.
- Callbacks (`cache_key`, `entry_dir`, `symlink_name`) are pure Dafny functions. A callback that raises, or that reads state, is not modelled.
- The `@snoop()` debug tracing around `cache()`, switched on by the `DEBUG_PYSNOOPER` environment variable, is not modelled. It only logs and does not change any result.
- The dummy cache is modelled only as the `None` state of `GlobalCache.current`. Its pass-through decorator is not modelled.
- The decorated function is not modelled. Its return value is the `computed` parameter of `Call`, and `invoked` says whether it was called.
- Concurrent callers are not modelled. The source has no locking.
- Injectivity of entry names is not claimed; distinct arguments can share a name.
- The tests and examples under `tests/` and `examples/` are not modelled.
- `Paths.EntryPartDecodes`: stated for `trim_arg >= 0` only. For a negative `trim_arg` the value is cut from the end; only `Paths.PySliceTo`'s contract describes that case.
- `Paths.GetReadablePath`: takes the configuration's fields rather than a `PathConfig` object. `ConfigDataclasses` refers to `Paths`, so `Paths` cannot refer back to it.
- `PathManager.EntryDirCallback`: the bound default method is represented by its owner's `trim_arg`. The manager never changes `trim_arg` after construction, so this is the same callback.
- `Decorator.PolarsCache.Call`: the function's own exceptions are not modelled. A load error on a hit is returned as the result; the source raises it.
