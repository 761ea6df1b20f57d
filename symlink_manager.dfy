/** The link manager the cache uses: it holds the configured link name and
    creates readable links with the same rules as the functional helpers. */
module SymlinkManager {
  import opened Wrappers
  import opened Types
  import opened FileTree
  import opened RelPaths
  import ConfigDataclasses
  import Symlinks

  class SymlinkManager {
    /** Set once at construction; the only configured input to name resolution. */
    const symlinkName: Option<NameSource>

    constructor (symlinkName: Option<NameSource> := None)
      ensures this.symlinkName == symlinkName
    {
      this.symlinkName := symlinkName;
    }

    /** `_get_symlink_name`: resolves the stored name exactly as `get_symlink_name`
        resolves a link configuration holding it, so the result is never blank,
        a literal is used verbatim and no name means `output.parquet`. */
    function GetSymlinkName(func: FuncId, args: Args, result: Frame, cacheKey: string): (r: Result<string, Error>)
      ensures r == Symlinks.GetSymlinkName(ConfigDataclasses.SymlinkConfig(symlinkName), func, args, result, cacheKey)
      ensures r.Success? ==> !Symlinks.IsBlank(r.value)
      ensures symlinkName.None? ==> r == Success(Symlinks.DefaultSymlinkName)
    {
      Symlinks.GetSymlinkName(ConfigDataclasses.SymlinkConfig(symlinkName), func, args, result, cacheKey)
    }

    /** `create_symlink`: the readable directory is created with its parents,
        the name is resolved, and a link to the blob is made unless something
        already exists at the link path. `mkdir` and name errors propagate; a
        refused link is swallowed. */
    method CreateSymlink(fs: FileSystem, func: FuncId, args: Args, cacheKey: string, result: Frame,
                         readableDir: Path, blobPath: Path, linkAllowed: bool)
      returns (r: Outcome<Error>)
      requires fs.Valid()
      modifies fs
      ensures fs.Valid()
      ensures var made := MkdirOutcome(old(fs.nodes), readableDir, true, true);
        var mid := MkdirAll(old(fs.nodes), readableDir);
        var name := GetSymlinkName(func, args, result, cacheKey);
        && (made.Fail? ==> r == made && fs.nodes == old(fs.nodes))
        && (made.Pass? && name.Failure? ==> r == Fail(name.error) && fs.nodes == mid)
        && (made.Pass? && name.Success? ==>
              && r == Pass && IsDir(fs.nodes, readableDir)
              && fs.nodes == Symlinks.PlaceLink(mid, readableDir + [name.value], RelPath(blobPath, readableDir), linkAllowed))
    {
      r := Symlinks.CreateSymlink(fs, ConfigDataclasses.SymlinkConfig(symlinkName), func, args, cacheKey,
                                  result, readableDir, blobPath, linkAllowed);
    }
  }
}
