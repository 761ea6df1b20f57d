/** Where the cache puts things: the blob path of a cache key, and the
    readable directory of a call, whose last segment names the arguments. */
module Paths {
  import opened Wrappers
  import opened Types
  import opened PercentEncoding

  // ---------------------------------------------------------------------------
  // Entry directory names

  /** Python's `s[:n]`: the first `n` characters, or all but the last `-n`
      when `n` is negative. */
  function PySliceTo(s: string, n: int): (r: string)
    ensures r <= s
    ensures |r| == if n >= 0 then (if n <= |s| then n else |s|) else (if |s| + n >= 0 then |s| + n else 0)
  {
    if n >= 0 then (if n <= |s| then s[..n] else s)
    else if |s| + n >= 0 then s[..|s| + n]
    else []
  }

  /** One `key=value` part of an entry directory name. */
  function EntryPart(key: string, value: ArgValue, trimArg: int): string {
    key + "=" + Quote(PySliceTo(value.text, trimArg))
  }

  function EntryParts(args: Args, trimArg: int): (parts: seq<string>)
    ensures |parts| == |args|
    ensures forall i :: 0 <= i < |args| ==> parts[i] == EntryPart(args[i].0, args[i].1, trimArg)
  {
    if args == [] then [] else [EntryPart(args[0].0, args[0].1, trimArg)] + EntryParts(args[1..], trimArg)
  }

  /** Python's `sep.join(parts)`. */
  function Join(parts: seq<string>, sep: string): string {
    if |parts| == 0 then ""
    else if |parts| == 1 then parts[0]
    else parts[0] + sep + Join(parts[1..], sep)
  }

  /** The default name of a call's entry directory: its arguments' parts
      joined by `_`, or `no_args` for a call without arguments. */
  function EntryDirName(args: Args, trimArg: int): string {
    if args == [] then "no_args" else Join(EntryParts(args, trimArg), "_")
  }

  /** `create_entry_dir_name`: builds the parts one argument at a time. */
  method CreateEntryDirName(func: FuncId, args: Args, trimArg: int := 50) returns (name: string)
    ensures name == EntryDirName(args, trimArg)
  {
    var parts: seq<string> := [];
    var i := 0;
    while i < |args|
      invariant 0 <= i <= |args|
      invariant |parts| == i
      invariant forall j :: 0 <= j < i ==> parts[j] == EntryPart(args[j].0, args[j].1, trimArg)
    {
      var (key, value) := args[i];
      var valueText := PySliceTo(value.text, trimArg);
      var encoded := Quote(valueText);
      parts := parts + [key + "=" + encoded];
      i := i + 1;
    }
    assert parts == EntryParts(args, trimArg);
    name := if parts != [] then Join(parts, "_") else "no_args";
  }

  lemma {:induction false} JoinStartsWith(parts: seq<string>, sep: string)
    requires parts != []
    ensures parts[0] <= Join(parts, sep)
  {
  }

  lemma {:induction false} JoinChars(parts: seq<string>, sep: string, c: char)
    requires c !in sep && forall i :: 0 <= i < |parts| ==> c !in parts[i]
    ensures c !in Join(parts, sep)
  {
    if |parts| > 1 {
      JoinChars(parts[1..], sep, c);
    }
  }

  /** The name is `no_args` exactly when the call has no arguments: every
      other name holds at least one `=`. */
  lemma NoArgsExactly(args: Args, trimArg: int)
    ensures EntryDirName(args, trimArg) == "no_args" <==> args == []
  {
    if args != [] {
      var parts := EntryParts(args, trimArg);
      JoinStartsWith(parts, "_");
      var k := |args[0].0|;
      assert parts[0][k] == '=';
      assert Join(parts, "_")[k] == '=';
      assert '=' !in "no_args";
    }
  }

  /** The index of the first occurrence of `c` in `s`. */
  function IndexOf(s: string, c: char): (r: Option<nat>)
    ensures r.Some? ==> r.value < |s| && s[r.value] == c && c !in s[..r.value]
    ensures r.None? ==> c !in s
  {
    if s == [] then None
    else if s[0] == c then Some(0)
    else match IndexOf(s[1..], c)
      case None => None
      case Some(i) => assert s[..i + 1] == [s[0]] + s[1..][..i]; Some(i + 1)
  }

  /** Reads a `key=value` part back: the key up to the first `=`, and the
      percent-decoded value after it. */
  function SplitPart(part: string): Option<(string, string)> {
    match IndexOf(part, '=')
    case None => None
    case Some(i) =>
      match Unquote(part[i + 1..])
      case None => None
      case Some(v) => Some((part[..i], v))
  }

  /** Truncation comes before encoding: a part reads back as its key and the
      first `trimArg` characters of the value's text (all of it when shorter).
      The encoded value is made of unreserved characters and `%XX` triplets,
      so it holds neither `/` nor `=`. */
  lemma EntryPartDecodes(key: string, value: ArgValue, trimArg: nat)
    requires '=' !in key
    ensures var encoded := Quote(PySliceTo(value.text, trimArg));
      && EntryPart(key, value, trimArg) == key + "=" + encoded
      && WellEscaped(encoded) && '/' !in encoded && '=' !in encoded
      && SplitPart(EntryPart(key, value, trimArg))
         == Some((key, value.text[..if trimArg <= |value.text| then trimArg else |value.text|]))
  {
    var raw := PySliceTo(value.text, trimArg);
    var encoded := Quote(raw);
    var part := key + "=" + encoded;
    QuoteWellEscaped(raw);
    QuoteHasNoSeparator(raw);
    UnquoteQuote(raw);
    var k := |key|;
    assert part[k] == '=';
    assert part[..k] == key;
    assert IndexOf(part, '=') == Some(k);
    assert part[k + 1..] == encoded;
    assert SplitPart(part) == Some((key, raw));
    assert raw == value.text[..|raw|];
  }

  /** With keys free of `/`, the entry name is a single path segment. */
  lemma EntryDirNameIsSegment(args: Args, trimArg: int)
    requires forall i :: 0 <= i < |args| ==> '/' !in args[i].0
    ensures '/' !in EntryDirName(args, trimArg)
  {
    var parts := EntryParts(args, trimArg);
    forall i | 0 <= i < |parts| ensures '/' !in parts[i] {
      QuoteHasNoSeparator(PySliceTo(args[i].1.text, trimArg));
    }
    JoinChars(parts, "_", '/');
  }

  // ---------------------------------------------------------------------------
  // Blob paths and readable paths

  /** `get_parquet_path`: the blob of a cache key, in the `blobs` directory. */
  function GetParquetPath(cacheDir: Path, cacheKey: string): (p: Path)
    ensures |p| == |cacheDir| + 2 && p[..|cacheDir|] == cacheDir && p[|cacheDir|] == "blobs"
  {
    cacheDir + ["blobs", cacheKey + ".parquet"]
  }

  /** Distinct cache keys never share a blob. */
  lemma ParquetPathInjective(cacheDir: Path, k1: string, k2: string)
    requires GetParquetPath(cacheDir, k1) == GetParquetPath(cacheDir, k2)
    ensures k1 == k2
  {
    var p := GetParquetPath(cacheDir, k1);
    assert p[|cacheDir| + 1] == k1 + ".parquet" == k2 + ".parquet";
    assert k1 == (k1 + ".parquet")[..|k1|];
    assert k2 == (k2 + ".parquet")[..|k2|];
  }

  /** The directory of a decorated function under the readable directory:
      `module/qualname` when nested, `module.qualname` otherwise, each segment
      percent-encoded. */
  function FunctionDir(readableDir: Path, nested: bool, func: FuncId): Path {
    if nested then readableDir + [Quote(func.moduleName), Quote(func.qualname)]
    else readableDir + [Quote(func.moduleName + "." + func.qualname)]
  }

  /** The function directory reads back as the function's identity. */
  lemma FunctionDirDecodes(readableDir: Path, nested: bool, func: FuncId)
    ensures var d := FunctionDir(readableDir, nested, func);
      && d[..|readableDir|] == readableDir
      && (nested ==>
            && |d| == |readableDir| + 2
            && Unquote(d[|readableDir|]) == Some(func.moduleName)
            && Unquote(d[|readableDir| + 1]) == Some(func.qualname))
      && (!nested ==>
            && |d| == |readableDir| + 1
            && Unquote(d[|readableDir|]) == Some(func.moduleName + "." + func.qualname))
  {
    UnquoteQuote(func.moduleName);
    UnquoteQuote(func.qualname);
    UnquoteQuote(func.moduleName + "." + func.qualname);
  }

  /** The entry-directory callback of a path configuration: the default
      `create_entry_dir_name` with `trim_arg` fixed, or one the user supplied. */
  datatype EntryDirCallback =
    | CreateEntryDirNameWith(trimArg: int)
    | Custom(f: (FuncId, Args) -> string)

  function EntryOf(callback: EntryDirCallback, func: FuncId, args: Args): string {
    match callback
    case CreateEntryDirNameWith(trimArg) => EntryDirName(args, trimArg)
    case Custom(f) => f(func, args)
  }

  method CallEntryDirCallback(callback: EntryDirCallback, func: FuncId, args: Args) returns (name: string)
    ensures name == EntryOf(callback, func, args)
  {
    match callback
    case CreateEntryDirNameWith(trimArg) =>
      name := CreateEntryDirName(func, args, trimArg);
    case Custom(f) =>
      name := f(func, args);
  }

  /** `get_readable_path` for a path configuration with the given settings:
      the function directory under `cacheDir/symlinksDirName`, then the entry
      directory the callback names. */
  method GetReadablePath(cacheDir: Path, symlinksDirName: string, nested: bool, callback: EntryDirCallback,
                         func: FuncId, args: Args) returns (p: Path)
    ensures p == FunctionDir(cacheDir + [symlinksDirName], nested, func) + [EntryOf(callback, func, args)]
  {
    var readableDir := cacheDir + [symlinksDirName];
    var readablePath: Path;
    if nested {
      var encodedModule := Quote(func.moduleName);
      var encodedQualname := Quote(func.qualname);
      readablePath := readableDir + [encodedModule, encodedQualname];
    } else {
      var fullQualname := func.moduleName + "." + func.qualname;
      readablePath := readableDir + [Quote(fullQualname)];
    }
    var entryDirName := CallEntryDirCallback(callback, func, args);
    p := readablePath + [entryDirName];
  }

  /** The readable tree and the blob store are disjoint unless the readable
      directory is itself named `blobs`. */
  lemma ReadableOutsideBlobs(cacheDir: Path, symlinksDirName: string, nested: bool, func: FuncId, entry: string, key: string)
    requires symlinksDirName != "blobs"
    ensures var r := FunctionDir(cacheDir + [symlinksDirName], nested, func) + [entry];
      !(cacheDir + ["blobs"] <= r) && !(r <= GetParquetPath(cacheDir, key))
  {
    var r := FunctionDir(cacheDir + [symlinksDirName], nested, func) + [entry];
    assert r[|cacheDir|] == symlinksDirName;
    assert |r| > |GetParquetPath(cacheDir, key)|;
  }
}
