/** Argument normalisation (`sort_args` and `normalise_args`): bound arguments
    are flattened so that the signature's parameters come first, in signature
    order, followed by the entries of the `**kwargs` dict sorted by key. */
module ArgOrder {

  datatype ParamKind = PositionalOnly | PositionalOrKeyword | VarPositional | KeywordOnly | VarKeyword

  datatype Param = Param(name: string, kind: ParamKind)

  /** A function signature: its parameters in declaration order. */
  type Signature = seq<Param>

  /** The value bound to a parameter: an ordinary value, or the dict that a
      `**kwargs` parameter collects. */
  datatype Bound<A> = Value(value: A) | KwDict(items: seq<(string, A)>)

  // ---------------------------------------------------------------------------
  // Ordered dicts as association lists

  function Keys<V>(d: seq<(string, V)>): seq<string> {
    if d == [] then [] else [d[0].0] + Keys(d[1..])
  }

  lemma {:induction false} KeysAt<V>(d: seq<(string, V)>, i: nat)
    requires i < |d|
    ensures |Keys(d)| == |d| && Keys(d)[i] == d[i].0
  {
    KeysLength(d);
    if i > 0 { KeysAt(d[1..], i - 1); }
  }

  lemma {:induction false} KeysLength<V>(d: seq<(string, V)>)
    ensures |Keys(d)| == |d|
  {
    if d != [] { KeysLength(d[1..]); }
  }

  lemma {:induction false} KeysAppend<V>(d: seq<(string, V)>, e: seq<(string, V)>)
    ensures Keys(d + e) == Keys(d) + Keys(e)
  {
    if d != [] {
      KeysAppend(d[1..], e);
      assert (d + e)[1..] == d[1..] + e;
    } else {
      assert d + e == e;
    }
  }

  lemma {:induction false} KeysMember<V>(d: seq<(string, V)>, k: string)
    ensures k in Keys(d) <==> exists i :: 0 <= i < |d| && d[i].0 == k
  {
    KeysLength(d);
    if k in Keys(d) {
      var i :| 0 <= i < |Keys(d)| && Keys(d)[i] == k;
      KeysAt(d, i);
    }
    if exists i :: 0 <= i < |d| && d[i].0 == k {
      var i :| 0 <= i < |d| && d[i].0 == k;
      KeysAt(d, i);
    }
  }

  /** Keys are pairwise distinct: the list is a dict. */
  predicate DistinctKeys<V>(d: seq<(string, V)>) {
    forall i, j :: 0 <= i < j < |d| ==> d[i].0 != d[j].0
  }

  /** `d[k]` */
  function Lookup<V>(d: seq<(string, V)>, k: string): V
    requires k in Keys(d)
  {
    if d[0].0 == k then d[0].1 else Lookup(d[1..], k)
  }

  /** `d[k] = v`: an existing key keeps its position, a new key goes last. */
  function Put<V>(d: seq<(string, V)>, k: string, v: V): seq<(string, V)> {
    if d == [] then [(k, v)]
    else if d[0].0 == k then [(k, v)] + d[1..]
    else [d[0]] + Put(d[1..], k, v)
  }

  /** `{**d, **e}` */
  function Merge<V>(d: seq<(string, V)>, e: seq<(string, V)>): seq<(string, V)>
    decreases |e|
  {
    if e == [] then d else Merge(Put(d, e[0].0, e[0].1), e[1..])
  }

  /** The keys of `ks` that are not in `seen`, in order. */
  function NewKeys(seen: seq<string>, ks: seq<string>): seq<string> {
    if ks == [] then []
    else if ks[0] in seen then NewKeys(seen, ks[1..])
    else [ks[0]] + NewKeys(seen, ks[1..])
  }

  lemma {:induction false} KeysPut<V>(d: seq<(string, V)>, k: string, v: V)
    ensures Keys(Put(d, k, v)) == if k in Keys(d) then Keys(d) else Keys(d) + [k]
  {
    if d != [] && d[0].0 != k {
      KeysPut(d[1..], k, v);
    }
  }

  lemma {:induction false} LookupPut<V>(d: seq<(string, V)>, k: string, v: V, k': string)
    requires k' == k || k' in Keys(d)
    ensures k' in Keys(Put(d, k, v))
    ensures Lookup(Put(d, k, v), k') == if k' == k then v else Lookup(d, k')
  {
    KeysPut(d, k, v);
    if d != [] && d[0].0 != k && d[0].0 != k' {
      LookupPut(d[1..], k, v, k');
    }
  }

  lemma {:induction false} NewKeysSkip(seen: seq<string>, k: string, ks: seq<string>)
    requires k !in ks
    ensures NewKeys(seen + [k], ks) == NewKeys(seen, ks)
  {
    if ks != [] {
      NewKeysSkip(seen, k, ks[1..]);
    }
  }

  lemma {:induction false} NewKeysMember(seen: seq<string>, ks: seq<string>, k: string)
    ensures k in NewKeys(seen, ks) <==> k in ks && k !in seen
  {
    if ks != [] { NewKeysMember(seen, ks[1..], k); }
  }

  lemma DistinctKeysTail<V>(e: seq<(string, V)>)
    requires DistinctKeys(e) && e != []
    ensures DistinctKeys(e[1..]) && e[0].0 !in Keys(e[1..])
  {
    KeysMember(e[1..], e[0].0);
  }

  /** The keys of `{**d, **e}`: those of `d` in their order, then the new keys of `e` in theirs. */
  lemma {:induction false} KeysMerge<V>(d: seq<(string, V)>, e: seq<(string, V)>)
    requires DistinctKeys(e)
    ensures Keys(Merge(d, e)) == Keys(d) + NewKeys(Keys(d), Keys(e))
    decreases |e|
  {
    if e != [] {
      var k := e[0].0;
      DistinctKeysTail(e);
      var d' := Put(d, k, e[0].1);
      KeysMerge(d', e[1..]);
      KeysPut(d, k, e[0].1);
      if k !in Keys(d) {
        NewKeysSkip(Keys(d), k, Keys(e[1..]));
        assert Keys(d) + [k] + NewKeys(Keys(d), Keys(e[1..])) == Keys(d) + ([k] + NewKeys(Keys(d), Keys(e[1..])));
      }
    }
  }

  /** The values of `{**d, **e}`: `e` wins where both have the key. */
  lemma {:induction false} LookupMerge<V>(d: seq<(string, V)>, e: seq<(string, V)>, k: string)
    requires DistinctKeys(e) && (k in Keys(d) || k in Keys(e))
    ensures k in Keys(Merge(d, e))
    ensures Lookup(Merge(d, e), k) == if k in Keys(e) then Lookup(e, k) else Lookup(d, k)
    decreases |e|
  {
    if e != [] {
      DistinctKeysTail(e);
      var d' := Put(d, e[0].0, e[0].1);
      KeysPut(d, e[0].0, e[0].1);
      if k == e[0].0 || k in Keys(d) {
        LookupPut(d, e[0].0, e[0].1, k);
      }
      LookupMerge(d', e[1..], k);
    }
  }

  lemma {:induction false} PutDistinct<V>(d: seq<(string, V)>, k: string, v: V)
    requires DistinctKeys(d)
    ensures DistinctKeys(Put(d, k, v))
  {
    KeysPut(d, k, v);
    var r := Put(d, k, v);
    KeysLength(r);
    KeysLength(d);
    forall i, j | 0 <= i < j < |r| ensures r[i].0 != r[j].0 {
      KeysAt(r, i);
      KeysAt(r, j);
      if j < |d| {
        KeysAt(d, i);
        KeysAt(d, j);
      } else {
        KeysAt(d, i);
      }
    }
  }

  lemma {:induction false} MergeDistinct<V>(d: seq<(string, V)>, e: seq<(string, V)>)
    requires DistinctKeys(d)
    ensures DistinctKeys(Merge(d, e))
    decreases |e|
  {
    if e != [] {
      PutDistinct(d, e[0].0, e[0].1);
      MergeDistinct(Put(d, e[0].0, e[0].1), e[1..]);
    }
  }

  // ---------------------------------------------------------------------------
  // Python's ordering of str: lexicographic by code point

  predicate StrLess(a: string, b: string) {
    if a == [] then b != []
    else if b == [] then false
    else if a[0] != b[0] then a[0] < b[0]
    else StrLess(a[1..], b[1..])
  }

  lemma {:induction false} StrLessIrreflexive(a: string)
    ensures !StrLess(a, a)
  {
    if a != [] { StrLessIrreflexive(a[1..]); }
  }

  lemma {:induction false} StrLessTransitive(a: string, b: string, c: string)
    requires StrLess(a, b) && StrLess(b, c)
    ensures StrLess(a, c)
  {
    if a != [] && b != [] && c != [] && a[0] == b[0] && b[0] == c[0] {
      StrLessTransitive(a[1..], b[1..], c[1..]);
    }
  }

  lemma {:induction false} StrLessTotal(a: string, b: string)
    requires a != b
    ensures StrLess(a, b) != StrLess(b, a)
  {
    if a != [] && b != [] && a[0] == b[0] {
      assert a == [a[0]] + a[1..] && b == [b[0]] + b[1..];
      StrLessTotal(a[1..], b[1..]);
    }
  }

  // ---------------------------------------------------------------------------
  // sorted(...) on the keys of a dict

  predicate SortedByKey<A>(s: seq<(string, A)>) {
    forall i, j :: 0 <= i < j < |s| ==> StrLess(s[i].0, s[j].0)
  }

  function Insert<A>(x: (string, A), s: seq<(string, A)>): (r: seq<(string, A)>)
    ensures multiset(r) == multiset(s) + multiset{x}
  {
    if s == [] then [x]
    else if StrLess(x.0, s[0].0) then [x] + s
    else
      assert s == [s[0]] + s[1..];
      [s[0]] + Insert(x, s[1..])
  }

  lemma {:induction false} InsertSorted<A>(x: (string, A), s: seq<(string, A)>)
    requires SortedByKey(s) && forall i :: 0 <= i < |s| ==> s[i].0 != x.0
    ensures SortedByKey(Insert(x, s))
  {
    if s == [] {
    } else if StrLess(x.0, s[0].0) {
      forall i | 0 < i < |s| ensures StrLess(x.0, s[i].0) {
        StrLessTransitive(x.0, s[0].0, s[i].0);
      }
    } else {
      StrLessTotal(x.0, s[0].0);
      InsertSorted(x, s[1..]);
      var t := Insert(x, s[1..]);
      assert s == [s[0]] + s[1..];
      forall j | 0 <= j < |t| ensures StrLess(s[0].0, t[j].0) {
        assert t[j] in multiset(t);
        if t[j] != x {
          assert t[j] in multiset(s[1..]);
          var m :| 0 <= m < |s[1..]| && s[1..][m] == t[j];
          assert s[m + 1] == t[j];
        }
      }
    }
  }

  /** The entries of a dict in ascending key order. */
  function SortByKey<A>(s: seq<(string, A)>): (r: seq<(string, A)>)
    ensures multiset(r) == multiset(s)
    ensures DistinctKeys(s) ==> SortedByKey(r)
  {
    if s == [] then []
    else
      var t := SortByKey(s[1..]);
      assert s == [s[0]] + s[1..];
      assert DistinctKeys(s) ==> SortedByKey(Insert(s[0], t)) by {
        if DistinctKeys(s) {
          forall i | 0 <= i < |t| ensures t[i].0 != s[0].0 {
            assert t[i] in multiset(s[1..]);
            var j :| 0 <= j < |s[1..]| && s[1..][j] == t[i];
            assert s[j + 1] == t[i];
          }
          InsertSorted(s[0], t);
        }
      }
      Insert(s[0], t)
  }

  lemma SameEntriesDistinct<A>(p: seq<(string, A)>, q: seq<(string, A)>)
    requires multiset(p) == multiset(q) && DistinctKeys(p)
    ensures DistinctKeys(q)
  {
    forall i, j | 0 <= i < j < |q| ensures q[i].0 != q[j].0 {
      if q[i].0 == q[j].0 {
        assert q[i] in multiset(p) && q[j] in multiset(p);
        var a :| 0 <= a < |p| && p[a] == q[i];
        var b :| 0 <= b < |p| && p[b] == q[j];
        if a == b {
          // q[i] == q[j] occurs twice in q, so twice in p: impossible with distinct keys
          assert q == q[..i] + [q[i]] + q[i + 1..j] + [q[j]] + q[j + 1..];
          assert multiset(q)[q[i]] >= 2;
          MultiplicityOne(p, a);
          assert false;
        }
      }
    }
  }

  lemma MultiplicityOne<A>(p: seq<(string, A)>, a: nat)
    requires DistinctKeys(p) && a < |p|
    ensures multiset(p)[p[a]] == 1
  {
    assert p == p[..a] + [p[a]] + p[a + 1..];
    assert p[a] !in multiset(p[..a]);
    assert p[a] !in multiset(p[a + 1..]);
  }

  lemma SortedSameHead<A>(p: seq<(string, A)>, q: seq<(string, A)>)
    requires SortedByKey(p) && SortedByKey(q) && multiset(p) == multiset(q) && p != []
    ensures q != [] && p[0] == q[0]
  {
    assert p[0] in multiset(q);
    assert q != [] && q[0] in multiset(p);
    var a :| 0 <= a < |q| && q[a] == p[0];
    var b :| 0 <= b < |p| && p[b] == q[0];
    if a != 0 {
      assert StrLess(q[0].0, p[0].0);
      if b == 0 {
        StrLessIrreflexive(q[0].0);
      } else {
        StrLessTransitive(q[0].0, p[0].0, q[0].0);
        StrLessIrreflexive(q[0].0);
      }
    }
  }

  lemma MultisetTail<A>(p: seq<A>)
    requires p != []
    ensures multiset(p[1..]) == multiset(p) - multiset{p[0]}
  {
    assert p == [p[0]] + p[1..];
  }

  /** A dict has one key-sorted arrangement: two sorted lists with the same entries are equal. */
  lemma {:induction false} SortedUnique<A>(p: seq<(string, A)>, q: seq<(string, A)>)
    requires SortedByKey(p) && SortedByKey(q) && multiset(p) == multiset(q)
    ensures p == q
  {
    if p != [] {
      SortedSameHead(p, q);
      MultisetTail(p);
      MultisetTail(q);
      SortedUnique(p[1..], q[1..]);
      assert p == [p[0]] + p[1..] && q == [q[0]] + q[1..];
    } else {
      assert |q| == |multiset(q)| == 0;
    }
  }

  // ---------------------------------------------------------------------------
  // sort_args

  /** The names of the signature's parameters other than `**kwargs`, in order. */
  function SigNames(sig: Signature): seq<string> {
    if sig == [] then []
    else if sig[0].kind == VarKeyword then SigNames(sig[1..])
    else [sig[0].name] + SigNames(sig[1..])
  }

  function ParamNames(sig: Signature): seq<string> {
    if sig == [] then [] else [sig[0].name] + ParamNames(sig[1..])
  }

  /** What Python guarantees of every signature: distinct, non-empty names and
      at most one `**kwargs` parameter. */
  predicate WellFormedSignature(sig: Signature) {
    && (forall i, j :: 0 <= i < j < |sig| ==> sig[i].name != sig[j].name)
    && (forall i :: 0 <= i < |sig| ==> sig[i].name != "")
    && (forall i, j :: 0 <= i < j < |sig| ==> sig[i].kind != VarKeyword || sig[j].kind != VarKeyword)
  }

  /** What `sort_args` needs of its input, all of which `Signature.bind` and
      `apply_defaults` provide: every bound name is a parameter, every
      parameter other than `**kwargs` is bound, and the `**kwargs` parameter,
      when bound, holds a dict. */
  predicate WellBound<A>(sig: Signature, bound: seq<(string, Bound<A>)>) {
    && WellFormedSignature(sig)
    && DistinctKeys(bound)
    && (forall k :: k in Keys(bound) ==> k in ParamNames(sig))
    && (forall k :: k in SigNames(sig) ==> k in Keys(bound))
    && (forall i :: 0 <= i < |bound| && bound[i].0 !in SigNames(sig) ==>
          bound[i].1.KwDict? && DistinctKeys(bound[i].1.items))
  }

  /** The bound names that are not signature parameters: the `**kwargs` parameter, if bound. */
  function ExtraKeys<A>(sig: Signature, bound: seq<(string, Bound<A>)>): seq<string> {
    NewKeys(SigNames(sig), Keys(bound))
  }

  /** The unpacked `**kwargs` dict, or `{}` when no such parameter is bound. */
  function UnpackedKwargs<A>(sig: Signature, bound: seq<(string, Bound<A>)>): (kw: seq<(string, A)>)
    requires WellBound(sig, bound)
    ensures DistinctKeys(kw)
  {
    var extra := ExtraKeys(sig, bound);
    if extra == [] then []
    else
      NewKeysMember(SigNames(sig), Keys(bound), extra[0]);
      LookupIsEntry(bound, extra[0]);
      Lookup(bound, extra[0]).items
  }

  lemma {:induction false} LookupIsEntry<V>(d: seq<(string, V)>, k: string)
    requires k in Keys(d)
    ensures exists i :: 0 <= i < |d| && d[i] == (k, Lookup(d, k))
  {
    if d[0].0 != k {
      LookupIsEntry(d[1..], k);
      var i :| 0 <= i < |d[1..]| && d[1..][i] == (k, Lookup(d[1..], k));
      assert d[i + 1] == (k, Lookup(d, k));
    } else {
      assert d[0] == (k, Lookup(d, k));
    }
  }

  /** `{k: bound_args[k] for k in names}` */
  function Project<V>(d: seq<(string, V)>, names: seq<string>): (r: seq<(string, V)>)
    requires forall k :: k in names ==> k in Keys(d)
  {
    if names == [] then [] else [(names[0], Lookup(d, names[0]))] + Project(d, names[1..])
  }

  function AsValues<A>(s: seq<(string, A)>): seq<(string, Bound<A>)> {
    if s == [] then [] else [(s[0].0, Value(s[0].1))] + AsValues(s[1..])
  }

  /** `sort_args(sig, bound_args)` */
  function SortArgs<A>(sig: Signature, bound: seq<(string, Bound<A>)>): seq<(string, Bound<A>)>
    requires WellBound(sig, bound)
  {
    Merge(Project(bound, SigNames(sig)), AsValues(SortByKey(UnpackedKwargs(sig, bound))))
  }

  /** `normalise_args(...)` from the point where defaults have been applied. */
  function NormaliseArgs<A>(sig: Signature, bound: seq<(string, Bound<A>)>, sort: bool): (r: seq<(string, Bound<A>)>)
    requires WellBound(sig, bound)
    ensures !sort ==> r == bound
  {
    if sort then SortArgs(sig, bound) else bound
  }

  // ---------------------------------------------------------------------------
  // Properties of sort_args

  predicate Ascending(ks: seq<string>) {
    forall i, j :: 0 <= i < j < |ks| ==> StrLess(ks[i], ks[j])
  }

  lemma {:induction false} KeysProject<V>(d: seq<(string, V)>, names: seq<string>)
    requires forall k :: k in names ==> k in Keys(d)
    ensures Keys(Project(d, names)) == names
  {
    if names != [] { KeysProject(d, names[1..]); }
  }

  lemma {:induction false} LookupProject<V>(d: seq<(string, V)>, names: seq<string>, k: string)
    requires forall k :: k in names ==> k in Keys(d)
    requires k in names
    ensures k in Keys(Project(d, names)) && Lookup(Project(d, names), k) == Lookup(d, k)
  {
    KeysProject(d, names);
    if names[0] != k { LookupProject(d, names[1..], k); }
  }

  lemma {:induction false} KeysAsValues<A>(s: seq<(string, A)>)
    ensures Keys(AsValues(s)) == Keys(s)
  {
    if s != [] { KeysAsValues(s[1..]); }
  }

  lemma {:induction false} LookupAsValues<A>(s: seq<(string, A)>, k: string)
    requires k in Keys(s)
    ensures k in Keys(AsValues(s)) && Lookup(AsValues(s), k) == Value(Lookup(s, k))
  {
    KeysAsValues(s);
    if s[0].0 != k { LookupAsValues(s[1..], k); }
  }

  lemma DistinctAsValues<A>(s: seq<(string, A)>)
    requires DistinctKeys(s)
    ensures DistinctKeys(AsValues(s))
  {
    KeysAsValues(s);
    KeysLength(s);
    KeysLength(AsValues(s));
    forall i, j | 0 <= i < j < |AsValues(s)| ensures AsValues(s)[i].0 != AsValues(s)[j].0 {
      KeysAt(s, i); KeysAt(s, j);
      KeysAt(AsValues(s), i); KeysAt(AsValues(s), j);
    }
  }

  lemma SortedKeysAscending<A>(s: seq<(string, A)>)
    requires SortedByKey(s)
    ensures Ascending(Keys(s))
  {
    KeysLength(s);
    forall i, j | 0 <= i < j < |Keys(s)| ensures StrLess(Keys(s)[i], Keys(s)[j]) {
      KeysAt(s, i);
      KeysAt(s, j);
    }
  }

  lemma {:induction false} NewKeysAscending(seen: seq<string>, ks: seq<string>)
    requires Ascending(ks)
    ensures Ascending(NewKeys(seen, ks))
  {
    if ks != [] {
      assert Ascending(ks[1..]);
      NewKeysAscending(seen, ks[1..]);
      var t := NewKeys(seen, ks[1..]);
      forall j | 0 <= j < |t| ensures StrLess(ks[0], t[j]) {
        NewKeysMember(seen, ks[1..], t[j]);
        var m :| 0 <= m < |ks[1..]| && ks[1..][m] == t[j];
        assert ks[m + 1] == t[j];
      }
    }
  }

  lemma SortArgsPrecondition<A>(sig: Signature, bound: seq<(string, Bound<A>)>)
    requires WellBound(sig, bound)
    ensures DistinctKeys(AsValues(SortByKey(UnpackedKwargs(sig, bound))))
    ensures forall k :: k in SigNames(sig) ==> k in Keys(bound)
  {
    var kw := UnpackedKwargs(sig, bound);
    SameEntriesDistinct(kw, SortByKey(kw));
    DistinctAsValues(SortByKey(kw));
  }

  /** The layout of `sort_args`' result: the signature's parameters other than
      `**kwargs` first, in signature order, then the `**kwargs` keys that are
      not parameter names, in ascending order; no key twice. */
  lemma SortArgsLayout<A>(sig: Signature, bound: seq<(string, Bound<A>)>)
    requires WellBound(sig, bound)
    ensures var r := SortArgs(sig, bound);
      && var names := SigNames(sig);
      && |names| <= |Keys(r)|
      && Keys(r)[..|names|] == names
      && Ascending(Keys(r)[|names|..])
      && DistinctKeys(r)
      && forall k :: k in Keys(r) <==> k in names || k in Keys(UnpackedKwargs(sig, bound))
  {
    var names := SigNames(sig);
    var kw := UnpackedKwargs(sig, bound);
    var sorted := SortByKey(kw);
    var front := Project(bound, names);
    var back := AsValues(sorted);
    SortArgsPrecondition(sig, bound);
    KeysProject(bound, names);
    KeysAsValues(sorted);
    KeysMerge(front, back);
    var r := Merge(front, back);
    assert r == SortArgs(sig, bound);
    assert Keys(r) == names + NewKeys(names, Keys(sorted));
    assert Keys(r)[..|names|] == names;
    assert Keys(r)[|names|..] == NewKeys(names, Keys(sorted));
    SortedKeysAscending(sorted);
    NewKeysAscending(names, Keys(sorted));
    assert DistinctKeys(front) by {
      DistinctNames(sig);
      ProjectDistinct(bound, names);
    }
    MergeDistinct(front, back);
    forall k ensures k in Keys(r) <==> k in names || k in Keys(kw) {
      NewKeysMember(names, Keys(sorted), k);
      KeysMember(sorted, k);
      KeysMember(kw, k);
      if k in Keys(kw) {
        var i :| 0 <= i < |kw| && kw[i].0 == k;
        assert kw[i] in multiset(sorted);
      }
      if k in Keys(sorted) {
        var i :| 0 <= i < |sorted| && sorted[i].0 == k;
        assert sorted[i] in multiset(kw);
      }
    }
  }

  lemma {:induction false} DistinctNames(sig: Signature)
    requires WellFormedSignature(sig)
    ensures forall i, j :: 0 <= i < j < |SigNames(sig)| ==> SigNames(sig)[i] != SigNames(sig)[j]
  {
    if sig != [] {
      assert WellFormedSignature(sig[1..]);
      DistinctNames(sig[1..]);
      SigNamesFrom(sig[1..], sig[0].name);
    }
  }

  lemma {:induction false} SigNamesFrom(sig: Signature, k: string)
    ensures k in SigNames(sig) ==> exists i :: 0 <= i < |sig| && sig[i].name == k && sig[i].kind != VarKeyword
  {
    if sig != [] && k in SigNames(sig) {
      if sig[0].kind == VarKeyword || sig[0].name != k {
        SigNamesFrom(sig[1..], k);
        var i :| 0 <= i < |sig[1..]| && sig[1..][i].name == k && sig[1..][i].kind != VarKeyword;
        assert sig[i + 1] == sig[1..][i];
      } else {
        assert sig[0].name == k && sig[0].kind != VarKeyword;
      }
    }
  }

  lemma {:induction false} ProjectDistinct<V>(d: seq<(string, V)>, names: seq<string>)
    requires forall k :: k in names ==> k in Keys(d)
    requires forall i, j :: 0 <= i < j < |names| ==> names[i] != names[j]
    ensures DistinctKeys(Project(d, names))
  {
    KeysProject(d, names);
    var r := Project(d, names);
    KeysLength(r);
    forall i, j | 0 <= i < j < |r| ensures r[i].0 != r[j].0 {
      KeysAt(r, i);
      KeysAt(r, j);
    }
  }

  /** The values of `sort_args`' result: a `**kwargs` entry carries its value
      over from the unpacked dict, and every other key carries the value bound
      to it. A positional-only parameter that shares its name with a `**kwargs`
      key therefore keeps its position but takes the `**kwargs` value. */
  lemma SortArgsValues<A>(sig: Signature, bound: seq<(string, Bound<A>)>, k: string)
    requires WellBound(sig, bound)
    requires k in SigNames(sig) || k in Keys(UnpackedKwargs(sig, bound))
    ensures k in Keys(SortArgs(sig, bound))
    ensures var kw := UnpackedKwargs(sig, bound);
      Lookup(SortArgs(sig, bound), k) == if k in Keys(kw) then Value(Lookup(kw, k)) else Lookup(bound, k)
  {
    var names := SigNames(sig);
    var kw := UnpackedKwargs(sig, bound);
    var sorted := SortByKey(kw);
    var front := Project(bound, names);
    var back := AsValues(sorted);
    SortArgsPrecondition(sig, bound);
    KeysProject(bound, names);
    KeysAsValues(sorted);
    SameKeysSorted(kw);
    if k in Keys(kw) {
      LookupAsValues(sorted, k);
      SortedLookup(kw, k);
    } else {
      LookupProject(bound, names, k);
    }
    LookupMerge(front, back, k);
  }

  lemma SameKeysSorted<A>(kw: seq<(string, A)>)
    ensures forall k :: k in Keys(kw) <==> k in Keys(SortByKey(kw))
  {
    var sorted := SortByKey(kw);
    forall k ensures k in Keys(kw) <==> k in Keys(sorted) {
      KeysMember(sorted, k);
      KeysMember(kw, k);
      if k in Keys(kw) {
        var i :| 0 <= i < |kw| && kw[i].0 == k;
        assert kw[i] in multiset(sorted);
      }
      if k in Keys(sorted) {
        var i :| 0 <= i < |sorted| && sorted[i].0 == k;
        assert sorted[i] in multiset(kw);
      }
    }
  }

  lemma {:induction false} LookupAt<V>(d: seq<(string, V)>, i: nat)
    requires DistinctKeys(d) && i < |d|
    ensures d[i].0 in Keys(d) && Lookup(d, d[i].0) == d[i].1
  {
    KeysAt(d, i);
    if i > 0 {
      assert DistinctKeys(d[1..]);
      LookupAt(d[1..], i - 1);
      assert d[0].0 != d[i].0;
    }
  }

  lemma SortedLookup<A>(kw: seq<(string, A)>, k: string)
    requires DistinctKeys(kw) && k in Keys(kw)
    ensures k in Keys(SortByKey(kw)) && Lookup(SortByKey(kw), k) == Lookup(kw, k)
  {
    var sorted := SortByKey(kw);
    SameKeysSorted(kw);
    SameEntriesDistinct(kw, sorted);
    LookupIsEntry(kw, k);
    var i :| 0 <= i < |kw| && kw[i] == (k, Lookup(kw, k));
    assert kw[i] in multiset(sorted);
    var j :| 0 <= j < |sorted| && sorted[j] == kw[i];
    LookupAt(sorted, j);
  }

  /** With no `**kwargs` bound, nothing is added: the result is the bound
      signature parameters, in signature order, with their bound values. */
  lemma SortArgsWithoutKwargs<A>(sig: Signature, bound: seq<(string, Bound<A>)>)
    requires WellBound(sig, bound) && ExtraKeys(sig, bound) == []
    ensures Keys(SortArgs(sig, bound)) == SigNames(sig)
    ensures forall k :: k in SigNames(sig) ==> k in Keys(SortArgs(sig, bound)) && Lookup(SortArgs(sig, bound), k) == Lookup(bound, k)
  {
    KeysProject(bound, SigNames(sig));
    forall k | k in SigNames(sig)
      ensures k in Keys(SortArgs(sig, bound)) && Lookup(SortArgs(sig, bound), k) == Lookup(bound, k)
    {
      LookupProject(bound, SigNames(sig), k);
    }
  }

  // The order in which `**kwargs` were passed does not matter

  lemma {:induction false} KeysUpdate<V>(d: seq<(string, V)>, j: nat, v: V)
    requires j < |d|
    ensures Keys(d[j := (d[j].0, v)]) == Keys(d)
  {
    if j > 0 {
      KeysUpdate(d[1..], j - 1, v);
      assert d[j := (d[j].0, v)][1..] == d[1..][j - 1 := (d[j].0, v)];
    } else {
      assert d[j := (d[j].0, v)][1..] == d[1..];
    }
  }

  lemma {:induction false} LookupUpdate<V>(d: seq<(string, V)>, j: nat, v: V, k: string)
    requires j < |d| && k in Keys(d) && k != d[j].0
    ensures Keys(d[j := (d[j].0, v)]) == Keys(d)
    ensures Lookup(d[j := (d[j].0, v)], k) == Lookup(d, k)
  {
    KeysUpdate(d, j, v);
    if d[0].0 != k {
      if j > 0 {
        LookupUpdate(d[1..], j - 1, v, k);
        assert d[j := (d[j].0, v)][1..] == d[1..][j - 1 := (d[j].0, v)];
      } else {
        assert d[j := (d[j].0, v)][1..] == d[1..];
      }
    }
  }

  lemma {:induction false} ExtraIsVarKeyword(sig: Signature, k: string)
    requires k in ParamNames(sig) && k !in SigNames(sig)
    ensures exists i :: 0 <= i < |sig| && sig[i].name == k && sig[i].kind == VarKeyword
  {
    if sig[0].name == k && sig[0].kind == VarKeyword {
    } else {
      ExtraIsVarKeyword(sig[1..], k);
      var i :| 0 <= i < |sig[1..]| && sig[1..][i].name == k && sig[1..][i].kind == VarKeyword;
      assert sig[i + 1] == sig[1..][i];
    }
  }

  /** At most one bound name is not a signature parameter: the `**kwargs` parameter. */
  lemma ExtraKeyUnique<A>(sig: Signature, bound: seq<(string, Bound<A>)>, k1: string, k2: string)
    requires WellBound(sig, bound)
    requires k1 in Keys(bound) && k1 !in SigNames(sig)
    requires k2 in Keys(bound) && k2 !in SigNames(sig)
    ensures k1 == k2
  {
    ExtraIsVarKeyword(sig, k1);
    ExtraIsVarKeyword(sig, k2);
    var i1 :| 0 <= i1 < |sig| && sig[i1].name == k1 && sig[i1].kind == VarKeyword;
    var i2 :| 0 <= i2 < |sig| && sig[i2].name == k2 && sig[i2].kind == VarKeyword;
    if i1 < i2 { assert false; }
    else if i2 < i1 { assert false; }
  }

  /** `sort_args` does not depend on the insertion order of `**kwargs`: replacing
      the `**kwargs` dict by any rearrangement of its entries gives the same result. */
  lemma SortArgsIgnoresKwargsOrder<A>(sig: Signature, bound: seq<(string, Bound<A>)>, j: nat, items: seq<(string, A)>)
    requires WellBound(sig, bound) && j < |bound| && bound[j].0 !in SigNames(sig)
    requires bound[j].1.KwDict? && multiset(items) == multiset(bound[j].1.items)
    ensures WellBound(sig, bound[j := (bound[j].0, KwDict(items))])
    ensures SortArgs(sig, bound[j := (bound[j].0, KwDict(items))]) == SortArgs(sig, bound)
  {
    var name := bound[j].0;
    var bound' := bound[j := (name, KwDict(items))];
    KeysUpdate(bound, j, KwDict(items));
    SameEntriesDistinct(bound[j].1.items, items);
    KeysAt(bound, j);
    assert WellBound(sig, bound');
    var names := SigNames(sig);
    forall k | k in names ensures Lookup(bound', k) == Lookup(bound, k) {
      LookupUpdate(bound, j, KwDict(items), k);
    }
    ProjectSame(bound, bound', names);
    var extra := ExtraKeys(sig, bound);
    NewKeysMember(names, Keys(bound), name);
    assert extra != [];
    NewKeysMember(names, Keys(bound), extra[0]);
    ExtraKeyUnique(sig, bound, extra[0], name);
    LookupAt(bound', j);
    LookupAt(bound, j);
    assert UnpackedKwargs(sig, bound') == items;
    assert UnpackedKwargs(sig, bound) == bound[j].1.items;
    SortedUnique(SortByKey(items), SortByKey(bound[j].1.items));
  }

  lemma {:induction false} ProjectSame<V>(d: seq<(string, V)>, d': seq<(string, V)>, names: seq<string>)
    requires Keys(d) == Keys(d')
    requires forall k :: k in names ==> k in Keys(d) && Lookup(d', k) == Lookup(d, k)
    ensures Project(d, names) == Project(d', names)
  {
    if names != [] { ProjectSame(d, d', names[1..]); }
  }

  function ExampleSignature(): Signature {
    [Param("a", PositionalOrKeyword), Param("b", PositionalOrKeyword), Param("kw", VarKeyword)]
  }

  function ExampleBound(): seq<(string, Bound<int>)> {
    [("a", Value(1)), ("b", Value(2)), ("kw", KwDict([("d", 4), ("c", 3)]))]
  }

  lemma ExampleWellBound()
    ensures WellBound(ExampleSignature(), ExampleBound())
    ensures UnpackedKwargs(ExampleSignature(), ExampleBound()) == [("d", 4), ("c", 3)]
  {
    var sig, bound := ExampleSignature(), ExampleBound();
    assert SigNames(sig) == ["a", "b"];
    assert Keys(bound) == ["a", "b", "kw"];
    assert ParamNames(sig) == ["a", "b", "kw"];
    assert ExtraKeys(sig, bound) == ["kw"];
  }

  lemma ExampleSorted()
    ensures SortByKey([("d", 4), ("c", 3)]) == [("c", 3), ("d", 4)]
  {
    assert StrLess("c", "d");
    assert SortByKey([("c", 3)]) == [("c", 3)];
  }

  lemma ExampleFront()
    ensures (forall k :: k in ["a", "b"] ==> k in Keys(ExampleBound()))
    ensures Project(ExampleBound(), ["a", "b"]) == [("a", Value(1)), ("b", Value(2))]
  {
    assert Keys(ExampleBound()) == ["a", "b", "kw"];
  }

  lemma ExampleMerge()
    ensures Merge([("a", Value(1)), ("b", Value(2))], [("c", Value(3)), ("d", Value(4))])
      == [("a", Value(1)), ("b", Value(2)), ("c", Value(3)), ("d", Value(4))]
  {
    var front: seq<(string, Bound<int>)> := [("a", Value(1)), ("b", Value(2))];
    var back: seq<(string, Bound<int>)> := [("c", Value(3)), ("d", Value(4))];
    var withC := Put(front, "c", Value(3));
    assert withC == [("a", Value(1)), ("b", Value(2)), ("c", Value(3))] by {
      assert "c" != "a" && "c" != "b";
      assert Put(front[1..], "c", Value(3)) == [("b", Value(2)), ("c", Value(3))];
    }
    assert Merge(front, back) == Merge(withC, back[1..]);
    assert Put(withC, "d", Value(4)) == [("a", Value(1)), ("b", Value(2)), ("c", Value(3)), ("d", Value(4))] by {
      assert "d" != "a" && "d" != "b" && "d" != "c";
      assert Put(withC[2..], "d", Value(4)) == [("c", Value(3)), ("d", Value(4))];
      assert Put(withC[1..], "d", Value(4)) == [("b", Value(2))] + Put(withC[2..], "d", Value(4));
    }
  }

  /** The worked example of `sort_args`: for `def f(a, b, **kw)` called as
      `f(b=2, a=1, d=4, c=3)` the result is `{'a': 1, 'b': 2, 'c': 3, 'd': 4}`. */
  lemma SortArgsExample()
    ensures WellBound(ExampleSignature(), ExampleBound())
    ensures SortArgs(ExampleSignature(), ExampleBound())
      == [("a", Value(1)), ("b", Value(2)), ("c", Value(3)), ("d", Value(4))]
  {
    ExampleWellBound();
    ExampleSorted();
    ExampleFront();
    ExampleMerge();
    assert SigNames(ExampleSignature()) == ["a", "b"];
    assert AsValues([("c", 3), ("d", 4)]) == [("c", Value(3)), ("d", Value(4))];
  }
}
