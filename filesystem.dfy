/** The part of the filesystem the cache touches: a tree of directories,
    files and symbolic links, addressed by segment paths. */
module FileTree {
  import opened Wrappers
  import opened Types

  /** A directory, a regular file holding one stored table, or a symbolic link
      holding its (relative) target. */
  datatype Node = Dir | File(data: Table) | Link(target: Path)

  function Parent(p: Path): Path
    requires p != []
  {
    p[..|p| - 1]
  }

  /** The root is a directory and every other node hangs from a directory. */
  predicate WellFormed(nodes: map<Path, Node>) {
    && [] in nodes && nodes[[]] == Dir
    && forall p :: p in nodes && p != [] ==> Parent(p) in nodes && nodes[Parent(p)] == Dir
  }

  predicate IsDir(nodes: map<Path, Node>, p: Path) {
    p in nodes && nodes[p] == Dir
  }

  // ---------------------------------------------------------------------------
  // Directory creation, as pathlib's `Path.mkdir(parents, exist_ok)` does it

  /** The error the operating system reports for an operation on the missing
      path `p`: it depends on the nearest ancestor of `p` that exists. */
  function MissingError(nodes: map<Path, Node>, p: Path): (e: Error)
    ensures e == FileNotFoundError || e == NotADirectoryError
    decreases |p|
  {
    if p == [] then FileNotFoundError
    else if Parent(p) in nodes then
      (if nodes[Parent(p)] == Dir then FileNotFoundError else NotADirectoryError)
    else MissingError(nodes, Parent(p))
  }

  /** The outcome of `p.mkdir(parents=parents, exist_ok=existOk)`. */
  function MkdirOutcome(nodes: map<Path, Node>, p: Path, parents: bool, existOk: bool): Outcome<Error>
    decreases |p|
  {
    if p in nodes then
      (if existOk && nodes[p] == Dir then Pass else Fail(FileExistsError))
    else if p == [] then Pass
    else if Parent(p) in nodes then
      (if nodes[Parent(p)] == Dir then Pass else Fail(NotADirectoryError))
    else if !parents then Fail(MissingError(nodes, p))
    else MkdirOutcome(nodes, Parent(p), true, true)
  }

  /** The tree after a successful `mkdir`: `p` and its missing ancestors are new directories. */
  function MkdirAll(nodes: map<Path, Node>, p: Path): map<Path, Node>
    decreases |p|
  {
    if p in nodes then nodes
    else if p == [] then nodes[p := Dir]
    else MkdirAll(nodes, Parent(p))[p := Dir]
  }

  /** A successful `mkdir` leaves `p` a directory, keeps every existing node as
      it was, adds only directories on the way to `p`, and keeps the tree well formed. */
  lemma {:induction false} MkdirEffect(nodes: map<Path, Node>, p: Path, parents: bool, existOk: bool)
    requires WellFormed(nodes) && MkdirOutcome(nodes, p, parents, existOk) == Pass
    ensures var after := MkdirAll(nodes, p);
      && WellFormed(after)
      && IsDir(after, p)
      && (forall q :: q in nodes ==> q in after && after[q] == nodes[q])
      && (forall q :: q in after && q !in nodes ==> after[q] == Dir && q <= p)
    decreases |p|
  {
    if p !in nodes {
      var q := Parent(p);
      if q !in nodes {
        MkdirEffect(nodes, q, true, true);
      }
      var mid := MkdirAll(nodes, q);
      assert IsDir(mid, q);
      assert mid == nodes || q !in nodes;
      var after := mid[p := Dir];
      forall r | r in after && r != [] ensures Parent(r) in after && after[Parent(r)] == Dir {
        if r != p {
          assert r in mid;
        }
      }
      forall r | r in after && r !in nodes ensures after[r] == Dir && r <= p {
        if r != p {
          assert r in mid && r <= q;
        }
      }
    }
  }

  /** A proper prefix of `p` is a prefix of its parent. */
  lemma PrefixOfParent(q: Path, p: Path)
    requires q < p
    ensures q <= Parent(p)
  {
    assert Parent(p)[..|q|] == p[..|q|];
  }

  /** In a well-formed tree, every ancestor of an existing path is a directory. */
  lemma {:induction false} AncestorsAreDirs(nodes: map<Path, Node>, p: Path)
    requires WellFormed(nodes) && p in nodes
    ensures forall q :: q < p ==> IsDir(nodes, q)
    decreases |p|
  {
    if p != [] {
      AncestorsAreDirs(nodes, Parent(p));
      forall q | q < p
        ensures IsDir(nodes, q)
      {
        PrefixOfParent(q, p);
        if q != Parent(p) {
          assert q < Parent(p);
        }
      }
    }
  }

  /** `mkdir(parents=True, exist_ok=True)` fails exactly when something that is
      not a directory stands on the way to `p`, or at `p` itself. */
  lemma {:induction false} MkdirParentsPasses(nodes: map<Path, Node>, p: Path)
    requires WellFormed(nodes)
    ensures MkdirOutcome(nodes, p, true, true).Pass? <==> forall q :: q <= p && q in nodes ==> nodes[q] == Dir
    decreases |p|
  {
    if p in nodes {
      if nodes[p] == Dir {
        AncestorsAreDirs(nodes, p);
        forall q | q <= p && q in nodes
          ensures nodes[q] == Dir
        {
          if q != p {
            assert IsDir(nodes, q);
          }
        }
      }
    } else {
      assert p != [];
      var pp := Parent(p);
      forall q | q <= p && q in nodes
        ensures q <= pp
      {
        assert q != p;
        PrefixOfParent(q, p);
      }
      if pp in nodes {
        if nodes[pp] == Dir {
          AncestorsAreDirs(nodes, pp);
          forall q | q <= p && q in nodes
            ensures nodes[q] == Dir
          {
            if q != pp {
              assert IsDir(nodes, q);
            }
          }
        }
      } else {
        MkdirParentsPasses(nodes, pp);
      }
    }
  }

  /** Inside an existing directory, `mkdir(exist_ok=True)` of a child fails
      exactly when a non-directory already has its name. */
  lemma ChildMkdir(nodes: map<Path, Node>, dir: Path, name: string, parents: bool)
    requires IsDir(nodes, dir)
    ensures MkdirOutcome(nodes, dir + [name], parents, true).Pass?
      <==> (dir + [name] in nodes ==> nodes[dir + [name]] == Dir)
  {
    assert Parent(dir + [name]) == dir;
  }

  /** With `exist_ok`, an existing directory is accepted and nothing changes. */
  lemma MkdirExisting(nodes: map<Path, Node>, p: Path, parents: bool)
    requires IsDir(nodes, p)
    ensures MkdirOutcome(nodes, p, parents, true) == Pass
    ensures MkdirAll(nodes, p) == nodes
  {
  }

  /** Without `parents`, `mkdir` succeeds on a missing path exactly when its parent is a directory. */
  lemma MkdirNoParents(nodes: map<Path, Node>, p: Path, existOk: bool)
    requires WellFormed(nodes) && p !in nodes
    ensures MkdirOutcome(nodes, p, false, existOk) == Pass <==> IsDir(nodes, Parent(p))
  {
    if Parent(p) !in nodes {
      var e := MissingError(nodes, p);
    }
  }

  /** Two `mkdir(exist_ok=True)` calls in a row: the outcome, and the tree after
      them. The second is not attempted when the first fails. */
  function MkdirBoth(nodes: map<Path, Node>, first: Path, second: Path): (Outcome<Error>, map<Path, Node>) {
    match MkdirOutcome(nodes, first, false, true)
    case Fail(e) => (Fail(e), nodes)
    case Pass =>
      var mid := MkdirAll(nodes, first);
      match MkdirOutcome(mid, second, false, true)
      case Fail(e) => (Fail(e), mid)
      case Pass => (Pass, MkdirAll(mid, second))
  }

  /** After both succeed, both paths are directories and nothing that existed
      changed; when both already were directories, both succeed and nothing changes. */
  lemma MkdirBothEffect(nodes: map<Path, Node>, first: Path, second: Path)
    requires WellFormed(nodes)
    ensures var (r, after) := MkdirBoth(nodes, first, second);
      && WellFormed(after)
      && (forall q :: q in nodes ==> q in after && after[q] == nodes[q])
      && (forall q :: q in after && q !in nodes ==> after[q] == Dir && (q == first || q == second))
      && (r.Pass? ==> IsDir(after, first) && IsDir(after, second))
      && (IsDir(nodes, first) && IsDir(nodes, second) ==> r.Pass? && after == nodes)
  {
    if MkdirOutcome(nodes, first, false, true) == Pass {
      MkdirEffect(nodes, first, false, true);
      var mid := MkdirAll(nodes, first);
      OneLevel(nodes, first);
      if MkdirOutcome(mid, second, false, true) == Pass {
        MkdirEffect(mid, second, false, true);
        OneLevel(mid, second);
      }
    }
  }

  /** Without `parents`, a successful `mkdir` adds at most the directory itself. */
  lemma OneLevel(nodes: map<Path, Node>, p: Path)
    requires WellFormed(nodes) && MkdirOutcome(nodes, p, false, true) == Pass
    ensures forall q :: q in MkdirAll(nodes, p) && q !in nodes ==> q == p
  {
    if p !in nodes {
      assert p != [];
      assert Parent(p) in nodes;
    }
  }

  // ---------------------------------------------------------------------------
  // Creating, writing and removing single entries

  /** Why a new entry cannot be created at `p`, if it cannot. */
  function CreateError(nodes: map<Path, Node>, p: Path): Option<Error> {
    if p == [] || p in nodes then Some(FileExistsError)
    else if Parent(p) !in nodes then Some(MissingError(nodes, p))
    else if nodes[Parent(p)] != Dir then Some(NotADirectoryError)
    else None
  }

  /** A path is created inside an existing directory and nothing else is touched. */
  lemma CreatePreserves(nodes: map<Path, Node>, p: Path, n: Node)
    requires WellFormed(nodes) && CreateError(nodes, p) == None
    requires n == Dir || n.File? || n.Link?
    ensures WellFormed(nodes[p := n])
  {
    forall r | r in nodes[p := n] && r != [] ensures Parent(r) in nodes[p := n] && nodes[p := n][Parent(r)] == Dir {
      if r != p {
        assert Parent(r) != p;
      }
    }
  }

  /** Replacing a file or link by another file or link keeps the tree well formed. */
  lemma ReplaceLeaf(nodes: map<Path, Node>, p: Path, n: Node)
    requires WellFormed(nodes) && p in nodes && nodes[p] != Dir && n != Dir
    ensures WellFormed(nodes[p := n])
  {
    forall r | r in nodes[p := n] && r != [] ensures Parent(r) in nodes[p := n] && nodes[p := n][Parent(r)] == Dir {
      assert Parent(r) != p;
    }
  }

  /** The outcome of writing a file at `p`: an existing file is overwritten. */
  function WriteOutcome(nodes: map<Path, Node>, p: Path): Outcome<Error> {
    if p in nodes && nodes[p] == Dir then Fail(IsADirectoryError)
    else if p in nodes then Pass
    else match CreateError(nodes, p)
      case Some(e) => Fail(e)
      case None => Pass
  }

  /** The outcome of `os.unlink(p)`. */
  function UnlinkOutcome(nodes: map<Path, Node>, p: Path): Outcome<Error> {
    if p !in nodes then Fail(FileNotFoundError)
    else if nodes[p] == Dir then Fail(IsADirectoryError)
    else Pass
  }

  /** Removing a file or link keeps the tree well formed. */
  lemma RemoveLeaf(nodes: map<Path, Node>, p: Path)
    requires WellFormed(nodes) && p in nodes && nodes[p] != Dir
    ensures WellFormed(nodes - {p})
  {
    forall r | r in nodes - {p} && r != [] ensures Parent(r) in nodes - {p} && (nodes - {p})[Parent(r)] == Dir {
      assert Parent(r) != p;
    }
  }

  /** The tree without `p` and everything beneath it. */
  function Without(nodes: map<Path, Node>, p: Path): (r: map<Path, Node>)
    ensures forall q :: q in r <==> q in nodes && !(p <= q)
    ensures forall q :: q in r ==> r[q] == nodes[q]
  {
    map q | q in nodes && !(p <= q) :: nodes[q]
  }

  /** Removing a subtree other than the root keeps the tree well formed. */
  lemma WithoutPreserves(nodes: map<Path, Node>, p: Path)
    requires WellFormed(nodes) && p != []
    ensures WellFormed(Without(nodes, p))
  {
    var r := Without(nodes, p);
    forall q | q in r && q != [] ensures Parent(q) in r && r[Parent(q)] == Dir {
      assert q[..|Parent(q)|] == Parent(q);
    }
  }

  /** The filesystem: its nodes change as the cache creates directories,
      writes blobs, creates links and clears itself. */
  class FileSystem {
    var nodes: map<Path, Node>

    predicate Valid()
      reads this
    {
      WellFormed(nodes)
    }

    constructor (nodes: map<Path, Node>)
      requires WellFormed(nodes)
      ensures Valid() && this.nodes == nodes
    {
      this.nodes := nodes;
    }

    function Exists(p: Path): bool
      reads this
    {
      p in nodes
    }

    method Mkdir(p: Path, parents: bool, existOk: bool) returns (r: Outcome<Error>)
      requires Valid()
      modifies this
      ensures Valid()
      ensures r == MkdirOutcome(old(nodes), p, parents, existOk)
      ensures nodes == if r.Pass? then MkdirAll(old(nodes), p) else old(nodes)
    {
      r := MkdirOutcome(nodes, p, parents, existOk);
      if r.Pass? {
        MkdirEffect(nodes, p, parents, existOk);
        nodes := MkdirAll(nodes, p);
      }
    }

    method WriteFile(p: Path, data: Table) returns (r: Outcome<Error>)
      requires Valid()
      modifies this
      ensures Valid()
      ensures r == WriteOutcome(old(nodes), p)
      ensures nodes == if r.Pass? then old(nodes)[p := File(data)] else old(nodes)
    {
      r := WriteOutcome(nodes, p);
      if r.Pass? {
        if p !in nodes {
          CreatePreserves(nodes, p, File(data));
        } else {
          ReplaceLeaf(nodes, p, File(data));
        }
        nodes := nodes[p := File(data)];
      }
    }

    /** `os.symlink`: a link is created only where nothing exists yet. */
    method Symlink(p: Path, target: Path) returns (r: Outcome<Error>)
      requires Valid()
      modifies this
      ensures Valid()
      ensures r == (match CreateError(old(nodes), p) case Some(e) => Fail(e) case None => Pass)
      ensures nodes == if r.Pass? then old(nodes)[p := Link(target)] else old(nodes)
    {
      match CreateError(nodes, p)
      case Some(e) =>
        r := Fail(e);
      case None =>
        CreatePreserves(nodes, p, Link(target));
        nodes := nodes[p := Link(target)];
        r := Pass;
    }

    method Unlink(p: Path) returns (r: Outcome<Error>)
      requires Valid()
      modifies this
      ensures Valid()
      ensures r == UnlinkOutcome(old(nodes), p)
      ensures nodes == if r.Pass? then old(nodes) - {p} else old(nodes)
    {
      r := UnlinkOutcome(nodes, p);
      if r.Pass? {
        RemoveLeaf(nodes, p);
        nodes := nodes - {p};
      }
    }

    /** `shutil.rmtree(p, ignore_errors=True)`: a directory goes with everything
      beneath it; anything else is left alone. */
    method RemoveTree(p: Path)
      requires Valid() && p != []
      modifies this
      ensures Valid()
      ensures nodes == if IsDir(old(nodes), p) then Without(old(nodes), p) else old(nodes)
    {
      if IsDir(nodes, p) {
        WithoutPreserves(nodes, p);
        nodes := Without(nodes, p);
      }
    }
  }
}
