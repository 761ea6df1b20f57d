/** Readable links: how a link's file name is chosen, and how a link to a
    blob is placed in the readable tree without replacing anything. */
module Symlinks {
  import opened Wrappers
  import opened Types
  import opened FileTree
  import opened RelPaths
  import opened ConfigDataclasses

  const DefaultSymlinkName: string := "output.parquet"

  /** Python's `str.isspace` for one character. */
  predicate IsSpace(c: char) {
    var n := c as int;
    || n == 0x20 || 0x09 <= n <= 0x0d || 0x1c <= n <= 0x1f
    || n == 0x85 || n == 0xa0 || n == 0x1680 || 0x2000 <= n <= 0x200a
    || n == 0x2028 || n == 0x2029 || n == 0x202f || n == 0x205f || n == 0x3000
  }

  /** `not s.strip()`: the string is empty or all whitespace. */
  predicate IsBlank(s: string) {
    forall i :: 0 <= i < |s| ==> IsSpace(s[i])
  }

  /** `get_symlink_name`: a callback's result must be a non-blank string, a
      literal name must be non-blank, and no name at all means `output.parquet`. */
  function GetSymlinkName(config: SymlinkConfig, func: FuncId, args: Args, result: Frame, cacheKey: string)
    : (r: Result<string, Error>)
    ensures r.Success? ==> !IsBlank(r.value)
    ensures config.symlinkName.None? ==> r == Success(DefaultSymlinkName)
    ensures config.symlinkName.Some? && config.symlinkName.value.Literal? ==>
      var name := config.symlinkName.value.name;
      && (r.Success? <==> !IsBlank(name))
      && (r.Success? ==> r.value == name)
      && (r.Failure? ==> r.error.ValueError?)
    ensures config.symlinkName.Some? && config.symlinkName.value.Callback? ==>
      var returned := config.symlinkName.value.f(func, args, result, cacheKey);
      && (r.Success? <==> returned.Str? && !IsBlank(returned.s))
      && (r.Success? ==> r.value == returned.s)
      && (r.Failure? ==> (r.error.TypeError? <==> returned.NonStr?))
    ensures r.Failure? ==> r.error.TypeError? || r.error.ValueError?
  {
    match config.symlinkName
    case Some(Callback(f)) =>
      (match f(func, args, result, cacheKey)
       case NonStr(typeName) => Failure(TypeError("symlink_name callback must return str, got " + typeName))
       case Str(name) =>
         if IsBlank(name) then Failure(ValueError("symlink_name callback returned empty/whitespace-only string"))
         else Success(name))
    case Some(Literal(name)) =>
      if IsBlank(name) then Failure(ValueError("symlink_name cannot be empty or whitespace-only"))
      else Success(name)
    case None =>
      assert !IsSpace(DefaultSymlinkName[0]);
      Success(DefaultSymlinkName)
  }

  /** The tree after the guarded link creation at `linkPath`: nothing changes
      when something is already there or the system refuses links. */
  function PlaceLink(nodes: map<Path, Node>, linkPath: Path, target: Path, linkAllowed: bool): map<Path, Node> {
    if linkPath in nodes || !linkAllowed || CreateError(nodes, linkPath).Some? then nodes
    else nodes[linkPath := Link(target)]
  }

  /** First writer wins: whatever already exists at the link path stays. */
  lemma FirstWriterWins(nodes: map<Path, Node>, linkPath: Path, target: Path, linkAllowed: bool)
    requires linkPath in nodes
    ensures PlaceLink(nodes, linkPath, target, linkAllowed) == nodes
  {
  }

  /** The link step touches only the link path. A link it creates in a
      directory that exists points, followed from that directory, to the blob. */
  lemma PlacedLinkResolves(nodes: map<Path, Node>, dir: Path, name: string, blob: Path, linkAllowed: bool)
    requires IsDir(nodes, dir) && name != ""
    ensures var after := PlaceLink(nodes, dir + [name], RelPath(blob, dir), linkAllowed);
      && (forall q :: q != dir + [name] ==> (q in after <==> q in nodes) && (q in nodes ==> after[q] == nodes[q]))
      && (linkAllowed && dir + [name] !in nodes ==> dir + [name] in after)
      && (dir + [name] in after && dir + [name] !in nodes ==>
            after[dir + [name]].Link? && Resolve(dir, after[dir + [name]].target) == Normalize(blob))
  {
    var p := dir + [name];
    assert Parent(p) == dir;
    RelPathResolves(blob, dir);
  }

  /** `create_symlink`: the readable directory is created (with parents), the
      name is resolved, and a link to the blob is made unless something
      already exists at the link path. `mkdir` and name errors propagate; a
      refused link is swallowed. */
  method CreateSymlink(fs: FileSystem, config: SymlinkConfig, func: FuncId, args: Args, cacheKey: string,
                       result: Frame, readableDir: Path, blobPath: Path, linkAllowed: bool)
    returns (r: Outcome<Error>)
    requires fs.Valid()
    modifies fs
    ensures fs.Valid()
    ensures var made := MkdirOutcome(old(fs.nodes), readableDir, true, true);
      var mid := MkdirAll(old(fs.nodes), readableDir);
      var name := GetSymlinkName(config, func, args, result, cacheKey);
      && (made.Fail? ==> r == made && fs.nodes == old(fs.nodes))
      && (made.Pass? && name.Failure? ==> r == Fail(name.error) && fs.nodes == mid)
      && (made.Pass? && name.Success? ==>
            && r == Pass && IsDir(fs.nodes, readableDir)
            && fs.nodes == PlaceLink(mid, readableDir + [name.value], RelPath(blobPath, readableDir), linkAllowed))
  {
    var made := fs.Mkdir(readableDir, true, true);
    if made.Fail? {
      return made;
    }
    MkdirEffect(old(fs.nodes), readableDir, true, true);
    var name := GetSymlinkName(config, func, args, result, cacheKey);
    if name.Failure? {
      return Fail(name.error);
    }
    var symlinkPath := readableDir + [name.value];
    var relativeBlob := RelPath(blobPath, readableDir);
    if !fs.Exists(symlinkPath) && linkAllowed {
      assert Parent(symlinkPath) == readableDir;
      var linked := fs.Symlink(symlinkPath, relativeBlob);
    }
    r := Pass;
  }
}
