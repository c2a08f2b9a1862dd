/** Manifests of a covered working tree and the delta between two of them
    (server/internal/sync/manifest.go, and Compare from backup.go). */
module SyncManifest {
  import opened Sorting
  import opened Wrappers

  /** Slash-separated and relative; one character is one byte. */
  type Path = string
  type Bytes = string

  datatype Kind = RegularFile | Symlink

  /** A collision-free hash is as good as what it was taken of. */
  datatype Hash = Sha256(of: Bytes)

  datatype Entry = Entry(path: Path, size: nat, mode: nat, kind: Kind, hash: Hash)

  datatype Action = Added | Overwritten | Deleted

  datatype Op = Op(path: Path, action: Action)

  type Manifest = seq<Entry>

  type Files = map<Path, Entry>

  function Index(m: Manifest): Files {
    if |m| == 0 then map[] else Index(m[..|m| - 1])[m[|m| - 1].path := m[|m| - 1]]
  }

  method BuildIndex(m: Manifest) returns (out: Files)
    ensures out == Index(m)
  {
    out := map[];
    for i := 0 to |m|
      invariant out == Index(m[..i])
    {
      assert m[..i + 1][..i] == m[..i];
      out := out[m[i].path := m[i]];
    }
    assert m[..|m|] == m;
  }

  lemma {:induction false} IndexKeys(m: Manifest)
    ensures forall p :: p in Index(m) <==> exists i :: 0 <= i < |m| && m[i].path == p
    ensures forall p :: p in Index(m) ==> Index(m)[p] in m && Index(m)[p].path == p
  {
    if |m| > 0 {
      IndexKeys(m[..|m| - 1]);
      assert m == m[..|m| - 1] + [m[|m| - 1]];
    }
  }

  // ---- Paths

  function Split(p: Path): (r: seq<string>)
    ensures |r| > 0
  {
    if |p| == 0 then [""]
    else
      var rest := Split(p[1..]);
      if p[0] == '/' then [""] + rest else [[p[0]] + rest[0]] + rest[1..]
  }

  predicate ValidPath(p: Path) {
    && p != "" && |p| <= 1024 && p[0] != '/' && '\0' !in p
    && p != ".git" && !(".git/" <= p)
    && forall seg :: seg in Split(p) ==> seg != "" && seg != "." && seg != ".."
  }

  /** Lexical resolution, as filepath.Join performs it on an absolute folder. */
  function Resolve(base: seq<string>, segs: seq<string>): seq<string>
    decreases |segs|
  {
    if |segs| == 0 then base
    else if segs[0] == "" || segs[0] == "." then Resolve(base, segs[1..])
    else if segs[0] == ".." then Resolve(if |base| == 0 then base else base[..|base| - 1], segs[1..])
    else Resolve(base + [segs[0]], segs[1..])
  }

  /** Joining a valid path to a folder names a place strictly inside the folder. */
  lemma ValidPathStaysInside(dir: seq<string>, p: Path)
    requires ValidPath(p)
    ensures Resolve(dir, Split(p)) == dir + Split(p)
  {
    PlainSegmentsResolve(dir, Split(p));
  }

  /** A path is valid if and only if it is at most 1024 bytes without a NUL, its segments between slashes are neither
      empty nor dots, and the first is not the repository's own folder. */
  lemma ValidPathIff(p: Path)
    ensures ValidPath(p) <==>
              && |p| <= 1024 && '\0' !in p && Split(p)[0] != ".git"
              && forall seg :: seg in Split(p) ==> seg != "" && seg != "." && seg != ".."
  {
    hide Split;
    FirstSegment(p, ".git");
    EmptySegment(p);
    assert ".git" + "/" == ".git/";
  }

  lemma EmptySegment(p: Path)
    ensures p == "" || p[0] == '/' ==> "" in Split(p)
  {
  }

  lemma {:induction false} FirstSegment(p: Path, s: string)
    requires '/' !in s
    ensures Split(p)[0] == s <==> p == s || s + "/" <= p
    decreases |s|
  {
    if |p| > 0 && p[0] != '/' && |s| > 0 {
      assert '/' !in s[1..];
      FirstSegment(p[1..], s[1..]);
      assert s == [s[0]] + s[1..] && p == [p[0]] + p[1..];
      assert s + "/" == [s[0]] + (s[1..] + "/");
      assert Split(p)[0] == [p[0]] + Split(p[1..])[0];
      if s + "/" <= p {
        assert p[1..][..|s|] == s[1..] + "/";
      }
    }
  }

  lemma {:induction false} PlainSegmentsResolve(dir: seq<string>, segs: seq<string>)
    requires forall seg :: seg in segs ==> seg != "" && seg != "." && seg != ".."
    ensures Resolve(dir, segs) == dir + segs
    decreases |segs|
  {
    if |segs| > 0 {
      assert segs[0] in segs && forall seg :: seg in segs[1..] ==> seg in segs;
      PlainSegmentsResolve(dir + [segs[0]], segs[1..]);
      assert [segs[0]] + segs[1..] == segs;
      assert dir + [segs[0]] + segs[1..] == dir + ([segs[0]] + segs[1..]);
    } else {
      assert dir + segs == dir;
    }
  }

  // ---- Order by path

  predicate OpLe(a: Op, b: Op) { TextLe(a.path, b.path) }

  predicate EntryLe(a: Entry, b: Entry) { TextLe(a.path, b.path) }

  lemma PathOrders()
    ensures TotalPreorder(OpLe) && TotalPreorder(EntryLe)
  {
    forall a: Path, b: Path ensures TextLe(a, b) || TextLe(b, a) { TextLeTotal(a, b); }
    forall a: Path, b: Path, c: Path | TextLe(a, b) && TextLe(b, c) ensures TextLe(a, c) { TextLeTransitive(a, b, c); }
  }

  ghost predicate DistinctPaths(m: Manifest) { forall i, j :: 0 <= i < j < |m| ==> m[i].path != m[j].path }

  /** Normalize refuses a manifest with an invalid or repeated path, and otherwise sorts it; the index
      is unchanged. */
  method Normalize(m: Manifest) returns (r: Option<Manifest>)
    ensures r.Some? <==> DistinctPaths(m) && forall e :: e in m ==> ValidPath(e.path)
    ensures r.Some? ==> Sorted(r.value, EntryLe) && multiset(r.value) == multiset(m) && DistinctPaths(r.value)
    ensures r.Some? ==> Index(r.value) == Index(m)
  {
    var seen: set<Path> := {};
    for i := 0 to |m|
      invariant seen == set j | 0 <= j < i :: m[j].path
      invariant DistinctPaths(m[..i])
      invariant forall j :: 0 <= j < i ==> ValidPath(m[j].path)
    {
      if !ValidPath(m[i].path) {
        return None;
      }
      if m[i].path in seen {
        return None;
      }
      seen := seen + {m[i].path};
    }
    assert m[..|m|] == m;
    PathOrders();
    SortSorted(m, EntryLe);
    NormalizedIndex(m);
    r := Some(Sort(m, EntryLe));
  }

  lemma NormalizedIndex(m: Manifest)
    requires DistinctPaths(m)
    ensures DistinctPaths(Sort(m, EntryLe)) && Index(Sort(m, EntryLe)) == Index(m)
  {
    var r := Sort(m, EntryLe);
    SortMembers(m, EntryLe);
    SortKeepsDistinct(m, EntryLe);
    assert DistinctPaths(r) by {
      if i, j :| 0 <= i < j < |r| && r[i].path == r[j].path {
        assert r[i] in r && r[j] in r;
        assert r[i] in m && r[j] in m;
      }
    }
    IndexKeys(m);
    IndexKeys(r);
    forall p | p in Index(m) ensures p in Index(r) && Index(r)[p] == Index(m)[p] {
      assert Index(m)[p] in r;
    }
    forall p | p in Index(r) ensures p in Index(m) {
      assert Index(r)[p] in m;
    }
  }

  // ---- The delta

  predicate SameContent(a: Entry, b: Entry) { a.hash == b.hash && a.mode == b.mode && a.kind == b.kind }

  /** What a sync must do to path `p` of `target` so that it matches `source`. */
  function Change(source: Files, target: Files, p: Path): Option<Action> {
    if p in source then
      if p !in target then Some(Added)
      else if !SameContent(source[p], target[p]) then Some(Overwritten)
      else None
    else if p in target then Some(Deleted)
    else None
  }

  ghost predicate StrictlySorted(ops: seq<Op>) {
    forall i, j :: 0 <= i < j < |ops| ==> TextLe(ops[i].path, ops[j].path) && ops[i].path != ops[j].path
  }

  /** One op per differing path, in path order, and no other op. */
  ghost predicate IsDiff(ops: seq<Op>, source: Files, target: Files) {
    && StrictlySorted(ops)
    && (forall op :: op in ops ==> Change(source, target, op.path) == Some(op.action))
    && (forall p :: Change(source, target, p).Some? ==> Op(p, Change(source, target, p).value) in ops)
  }

  method Diff(source: Manifest, target: Manifest) returns (ops: seq<Op>)
    ensures IsDiff(ops, Index(source), Index(target))
  {
    hide OpsFor, IsDiff, Sort;
    var src := BuildIndex(source);
    var dst := BuildIndex(target);
    ops := [];
    NoOpsFor(src, dst);
    assert src.Keys - src.Keys == {};
    var todo := src.Keys;
    while todo != {}
      invariant todo <= src.Keys
      invariant OpsFor(ops, src, dst, src.Keys - todo)
      decreases todo
    {
      var p :| p in todo;
      OpsForNext(ops, src, dst, src.Keys - todo, p);
      if p !in dst {
        ops := ops + [Op(p, Added)];
      } else if src[p].hash != dst[p].hash || src[p].mode != dst[p].mode || src[p].kind != dst[p].kind {
        ops := ops + [Op(p, Overwritten)];
      }
      assert src.Keys - (todo - {p}) == src.Keys - todo + {p};
      todo := todo - {p};
    }
    assert src.Keys - todo == src.Keys + (dst.Keys - dst.Keys);
    todo := dst.Keys;
    while todo != {}
      invariant todo <= dst.Keys
      invariant OpsFor(ops, src, dst, src.Keys + (dst.Keys - todo))
      decreases todo
    {
      var p :| p in todo;
      ghost var done := src.Keys + (dst.Keys - todo);
      if p !in src {
        OpsForNext(ops, src, dst, done, p);
        ops := ops + [Op(p, Deleted)];
        assert src.Keys + (dst.Keys - (todo - {p})) == done + {p};
      } else {
        assert src.Keys + (dst.Keys - (todo - {p})) == done;
      }
      todo := todo - {p};
    }
    assert src.Keys + (dst.Keys - todo) == src.Keys + dst.Keys;
    SortedOpsAreDiff(ops, src, dst);
    ops := Sort(ops, OpLe);
  }

  /** The ops of exactly the paths `done`, each once, in any order. */
  ghost predicate OpsFor(ops: seq<Op>, source: Files, target: Files, done: set<Path>) {
    && (forall i :: 0 <= i < |ops| ==>
          ops[i].path in done && Change(source, target, ops[i].path) == Some(ops[i].action))
    && (forall p :: p in done && Change(source, target, p).Some? ==> Op(p, Change(source, target, p).value) in ops)
    && (forall i, j :: 0 <= i < j < |ops| ==> ops[i].path != ops[j].path)
  }

  lemma NoOpsFor(source: Files, target: Files)
    ensures OpsFor([], source, target, {})
  {
  }

  lemma OpsForNext(ops: seq<Op>, source: Files, target: Files, done: set<Path>, p: Path)
    requires OpsFor(ops, source, target, done) && p !in done
    ensures var c := Change(source, target, p);
            OpsFor(if c.Some? then ops + [Op(p, c.value)] else ops, source, target, done + {p})
  {
    hide Change;
  }

  lemma SortedOpsAreDiff(ops: seq<Op>, source: Files, target: Files)
    requires OpsFor(ops, source, target, source.Keys + target.Keys)
    ensures IsDiff(Sort(ops, OpLe), source, target)
  {
    var r := Sort(ops, OpLe);
    PathOrders();
    SortSorted(ops, OpLe);
    SortMembers(ops, OpLe);
    SortKeepsDistinct(ops, OpLe);
    forall i, j | 0 <= i < j < |r| ensures r[i].path != r[j].path {
      assert r[i] in ops && r[j] in ops;
    }
    forall p | Change(source, target, p).Some? ensures Op(p, Change(source, target, p).value) in r {
      assert p in source.Keys + target.Keys;
    }
  }

  /** The order in which the maps were walked cannot be seen: the ops of two manifests are unique. */
  lemma {:induction false} DiffUnique(a: seq<Op>, b: seq<Op>, source: Files, target: Files)
    requires IsDiff(a, source, target) && IsDiff(b, source, target)
    ensures a == b
  {
    assert forall op :: op in a <==> op in b;
    StrictlySortedUnique(a, b);
  }

  lemma {:induction false} StrictlySortedUnique(a: seq<Op>, b: seq<Op>)
    requires StrictlySorted(a) && StrictlySorted(b)
    requires forall op :: op in a <==> op in b
    ensures a == b
  {
    assert |a| > 0 ==> a[0] in b;
    assert |b| > 0 ==> b[0] in a;
    if |a| > 0 {
      TextLeTotal(a[0].path, b[0].path);
      assert a[0] == b[0];
      forall op | op in a[1..] ensures op in b[1..] { assert op in b; }
      forall op | op in b[1..] ensures op in a[1..] { assert op in a; }
      StrictlySortedUnique(a[1..], b[1..]);
      assert a == [a[0]] + a[1..] && b == [b[0]] + b[1..];
    }
  }

  function CountOf(ops: seq<Op>, action: Action): nat {
    if |ops| == 0 then 0 else CountOf(ops[..|ops| - 1], action) + (if ops[|ops| - 1].action == action then 1 else 0)
  }

  method Counts(ops: seq<Op>) returns (add: nat, overwrite: nat, deleted: nat)
    ensures add == CountOf(ops, Added) && overwrite == CountOf(ops, Overwritten) && deleted == CountOf(ops, Deleted)
    ensures add + overwrite + deleted == |ops|
  {
    add, overwrite, deleted := 0, 0, 0;
    for i := 0 to |ops|
      invariant add == CountOf(ops[..i], Added) && overwrite == CountOf(ops[..i], Overwritten)
                  && deleted == CountOf(ops[..i], Deleted)
      invariant add + overwrite + deleted == i
    {
      assert ops[..i + 1][..i] == ops[..i];
      match ops[i].action
      case Added => add := add + 1;
      case Overwritten => overwrite := overwrite + 1;
      case Deleted => deleted := deleted + 1;
    }
    assert ops[..|ops|] == ops;
  }

  function PathsWith(ops: seq<Op>, action: Action): set<Path> {
    set i | 0 <= i < |ops| && ops[i].action == action :: ops[i].path
  }

  lemma PathsWithIff(ops: seq<Op>, action: Action, p: Path)
    ensures p in PathsWith(ops, action) <==> Op(p, action) in ops
  {
    if Op(p, action) in ops {
      var i :| 0 <= i < |ops| && ops[i] == Op(p, action);
    }
  }

  lemma {:induction false} CountIs(ops: seq<Op>, action: Action)
    requires forall i, j :: 0 <= i < j < |ops| ==> ops[i].path != ops[j].path
    ensures CountOf(ops, action) == |PathsWith(ops, action)|
  {
    if |ops| > 0 {
      hide PathsWith;
      var rest, op := ops[..|ops| - 1], ops[|ops| - 1];
      CountIs(rest, action);
      assert ops == rest + [op];
      var last: set<Path> := if op.action == action then {op.path} else {};
      forall p ensures p in PathsWith(ops, action) <==> p in PathsWith(rest, action) + last {
        PathsWithIff(ops, action, p);
        PathsWithIff(rest, action, p);
      }
      assert PathsWith(ops, action) == PathsWith(rest, action) + last;
      assert op.path !in PathsWith(rest, action) by { PathsWithIff(rest, action, op.path); }
    }
  }

  lemma DiffIsDistinct(source: Files, target: Files, ops: seq<Op>)
    requires IsDiff(ops, source, target)
    ensures forall i, j :: 0 <= i < j < |ops| ==> ops[i].path != ops[j].path
  {
  }

  lemma PathIff(source: Files, target: Files, ops: seq<Op>, a: Action, p: Path)
    requires IsDiff(ops, source, target)
    ensures p in PathsWith(ops, a) <==> Change(source, target, p) == Some(a)
  {
    hide StrictlySorted, Change, PathsWith;
    PathsWithIff(ops, a, p);
  }

  /** The paths that come, go, and change. */
  function Differing(source: Files, target: Files, a: Action): set<Path> {
    match a
    case Added => source.Keys - target.Keys
    case Deleted => target.Keys - source.Keys
    case Overwritten => set p | p in source && p in target && !SameContent(source[p], target[p])
  }

  lemma DifferingIff(source: Files, target: Files, a: Action, p: Path)
    ensures p in Differing(source, target, a) <==> Change(source, target, p) == Some(a)
  {
    hide SameContent;
  }

  /** The counts of a diff say how many paths come, how many go and how many change. */
  lemma DiffCounts(source: Files, target: Files, ops: seq<Op>, a: Action)
    requires IsDiff(ops, source, target)
    ensures CountOf(ops, a) == |Differing(source, target, a)|
  {
    hide Change, PathsWith, CountOf, IsDiff, Differing;
    DiffIsDistinct(source, target, ops);
    CountIs(ops, a);
    forall p ensures p in PathsWith(ops, a) <==> p in Differing(source, target, a) {
      PathIff(source, target, ops, a, p);
      DifferingIff(source, target, a, p);
    }
    assert PathsWith(ops, a) == Differing(source, target, a);
  }

  /** The source entries whose bytes must move. */
  function Transfer(source: Files, ops: seq<Op>): Manifest {
    if |ops| == 0 then []
    else
      var op := ops[|ops| - 1];
      Transfer(source, ops[..|ops| - 1]) + (if op.action != Deleted && op.path in source then [source[op.path]] else [])
  }

  method TransferSet(source: Manifest, ops: seq<Op>) returns (out: Manifest)
    ensures out == Transfer(Index(source), ops)
  {
    var byPath := BuildIndex(source);
    out := [];
    for i := 0 to |ops|
      invariant out == Transfer(byPath, ops[..i])
    {
      assert ops[..i + 1][..i] == ops[..i];
      if ops[i].action == Deleted {
        continue;
      }
      if ops[i].path in byPath {
        out := out + [byPath[ops[i].path]];
      }
    }
    assert ops[..|ops|] == ops;
  }

  lemma {:induction false} TransferMembers(source: Files, ops: seq<Op>)
    ensures forall e :: e in Transfer(source, ops) <==>
              exists i :: 0 <= i < |ops| && ops[i].action != Deleted && ops[i].path in source
                  && source[ops[i].path] == e
  {
    if |ops| > 0 {
      TransferMembers(source, ops[..|ops| - 1]);
    }
  }

  // ---- Comparison

  /** The first difference found, if any: a count that differs, or a path. */
  method Compare(want: Manifest, got: Manifest) returns (ok: bool)
    ensures ok <==> Matches(Index(want), Index(got))
  {
    var wantIdx := BuildIndex(want);
    var gotIdx := BuildIndex(got);
    if |wantIdx| != |gotIdx| {
      assert Matches(wantIdx, gotIdx) ==> wantIdx.Keys == gotIdx.Keys;
      return false;
    }
    var todo := wantIdx.Keys;
    while todo != {}
      invariant todo <= wantIdx.Keys
      invariant forall p :: p in wantIdx && p !in todo ==> p in gotIdx && SameContent(wantIdx[p], gotIdx[p])
      decreases todo
    {
      var p :| p in todo;
      if p !in gotIdx || gotIdx[p].hash != wantIdx[p].hash || gotIdx[p].mode != wantIdx[p].mode
          || gotIdx[p].kind != wantIdx[p].kind {
        return false;
      }
      todo := todo - {p};
    }
    SubsetOfSameSize(wantIdx.Keys, gotIdx.Keys);
    return true;
  }

  /** Same paths, same content at each. */
  predicate Matches(a: Files, b: Files) { a.Keys == b.Keys && forall p :: p in a ==> SameContent(a[p], b[p]) }

  lemma {:induction false} SubsetOfSameSize<T>(a: set<T>, b: set<T>)
    requires a <= b && |a| == |b|
    ensures a == b
  {
    assert b == a + (b - a);
    assert |b - a| == 0;
  }

  /** Compare accepts exactly when there is nothing to sync. */
  lemma MatchesIffNoOps(source: Files, target: Files, ops: seq<Op>)
    requires IsDiff(ops, source, target)
    ensures Matches(source, target) <==> ops == []
  {
    if ops == [] {
      forall p | p in source + target ensures p in source && p in target && SameContent(source[p], target[p]) {
        assert Change(source, target, p).None?;
      }
    } else {
      assert Change(source, target, ops[0].path).Some?;
    }
  }
}
