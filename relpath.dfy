/** Relative link targets: `os.path.relpath` on absolute segment paths, and
    how the operating system follows such a target from a link's directory. */
module RelPaths {
  import opened Types

  /** A path with no empty, `.` or `..` segments. */
  predicate Normal(p: Path) {
    forall i :: 0 <= i < |p| ==> IsName(p[i])
  }

  /** A segment that names an entry, rather than the current or parent directory. */
  predicate IsName(segment: string) {
    segment != "" && segment != "." && segment != ".."
  }

  /** `os.path.normpath` of an absolute path: empty and `.` segments vanish and
      `..` removes the segment before it (at the root it is dropped). */
  function Normalize(p: Path): (r: Path)
    ensures Normal(r)
    ensures |r| <= |p|
  {
    if p == [] then []
    else
      var init := Normalize(p[..|p| - 1]);
      var last := p[|p| - 1];
      if last == "" || last == "." then init
      else if last == ".." then (if init == [] then [] else init[..|init| - 1])
      else init + [last]
  }

  function Repeat(s: string, n: nat): (r: seq<string>)
    ensures |r| == n && forall i :: 0 <= i < n ==> r[i] == s
  {
    if n == 0 then [] else Repeat(s, n - 1) + [s]
  }

  /** The length of the longest common prefix of two paths. */
  function CommonPrefixLength(a: Path, b: Path): (n: nat)
    ensures n <= |a| && n <= |b| && a[..n] == b[..n]
    ensures n < |a| && n < |b| ==> a[n] != b[n]
  {
    if a == [] || b == [] || a[0] != b[0] then 0
    else
      var m := CommonPrefixLength(a[1..], b[1..]);
      assert a[..m + 1] == [a[0]] + a[1..][..m];
      assert b[..m + 1] == [b[0]] + b[1..][..m];
      m + 1
  }

  /** `os.path.relpath(target, start)`: climb from `start` to the common
      prefix, then descend to `target`; `.` when the two are the same place. */
  function RelPath(target: Path, start: Path): (r: Path)
    ensures r != []
    ensures r == ["."] || forall k :: 0 <= k < |r| ==> r[k] == ".." || IsName(r[k])
    ensures var t := Normalize(target); var s := Normalize(start);
      t <= s ==> r == (if |s| == |t| then ["."] else Repeat("..", |s| - |t|))
  {
    var t := Normalize(target);
    var s := Normalize(start);
    var i := CommonPrefixLength(s, t);
    var rel := Repeat("..", |s| - i) + t[i..];
    if rel == [] then ["."] else rel
  }

  /** Where the operating system arrives when it follows the relative target
      `rel` from the directory `dir`. */
  function Resolve(dir: Path, rel: Path): Path {
    Normalize(dir + rel)
  }

  lemma {:induction false} NormalizeNormal(p: Path)
    requires Normal(p)
    ensures Normalize(p) == p
  {
    if p != [] {
      NormalizeNormal(p[..|p| - 1]);
      assert p == p[..|p| - 1] + [p[|p| - 1]];
    }
  }

  lemma {:induction false} NormalizeAppendNormal(a: Path, u: Path)
    requires Normal(u)
    ensures Normalize(a + u) == Normalize(a) + u
  {
    if u == [] {
      assert a + u == a;
    } else {
      var u' := u[..|u| - 1];
      NormalizeAppendNormal(a, u');
      assert (a + u)[..|a + u| - 1] == a + u';
    }
  }

  lemma {:induction false} NormalizeClimb(s: Path, k: nat)
    requires Normal(s) && k <= |s|
    ensures Normalize(s + Repeat("..", k)) == s[..|s| - k]
  {
    if k == 0 {
      assert s + Repeat("..", 0) == s;
      NormalizeNormal(s);
    } else {
      NormalizeClimb(s, k - 1);
      assert (s + Repeat("..", k))[..|s| + k - 1] == s + Repeat("..", k - 1);
    }
  }

  /** Normalising a prefix first does not change the normal form. */
  lemma {:induction false} NormalizeConcat(a: Path, b: Path)
    ensures Normalize(a + b) == Normalize(Normalize(a) + b)
  {
    if b == [] {
      assert a + b == a;
      assert Normalize(a) + b == Normalize(a);
      NormalizeNormal(Normalize(a));
    } else {
      var b' := b[..|b| - 1];
      NormalizeConcat(a, b');
      assert (a + b)[..|a + b| - 1] == a + b';
      assert (Normalize(a) + b)[..|Normalize(a) + b| - 1] == Normalize(a) + b';
    }
  }

  /** Following the target `os.path.relpath` computes from a link's directory
      leads to the (normalised) path it was computed for. */
  lemma RelPathResolves(target: Path, start: Path)
    ensures Resolve(start, RelPath(target, start)) == Normalize(target)
  {
    var s := Normalize(start);
    NormalizeNormal(s);
    assert RelPath(target, s) == RelPath(target, start);
    NormalRelPathResolves(target, s);
    NormalizeConcat(start, RelPath(target, start));
  }

  lemma NormalRelPathResolves(target: Path, start: Path)
    requires Normal(start)
    ensures Resolve(start, RelPath(target, start)) == Normalize(target)
  {
    var t := Normalize(target);
    NormalizeNormal(start);
    var i := CommonPrefixLength(start, t);
    var rel := Repeat("..", |start| - i) + t[i..];
    assert RelPath(target, start) == if rel == [] then ["."] else rel;
    if rel == [] {
      assert |start| == i && |t| == i;
      assert start == start[..i] && t == t[..i];
      StayPut(start);
    } else {
      ClimbThenDescend(start, t, i);
    }
  }

  lemma StayPut(start: Path)
    requires Normal(start)
    ensures Normalize(start + ["."]) == start
  {
    NormalizeNormal(start);
    assert (start + ["."])[..|start|] == start;
  }

  lemma ClimbThenDescend(start: Path, t: Path, i: nat)
    requires Normal(start) && Normal(t) && i <= |start| && i <= |t| && start[..i] == t[..i]
    ensures Normalize(start + (Repeat("..", |start| - i) + t[i..])) == t
  {
    var up := Repeat("..", |start| - i);
    var down := t[i..];
    assert Normal(down);
    var a := start + up;
    NormalizeClimb(start, |start| - i);
    assert Normalize(a) == t[..i];
    NormalizeAppendNormal(a, down);
    assert Normalize(a + down) == t[..i] + down;
    assert t[..i] + down == t;
    assert start + (up + down) == a + down;
  }

  /** For a target that is already normal, following the link leads exactly to it. */
  lemma RelPathResolvesNormal(target: Path, start: Path)
    requires Normal(target)
    ensures Resolve(start, RelPath(target, start)) == target
  {
    RelPathResolves(target, start);
    NormalizeNormal(target);
  }
}
