/** The download as a transaction (tar.go, service.go and manifest.go in server/internal/sync, and receive in
    server/cmd/pcoder-sync/main.go). */
module SyncReceive {
  import opened SyncBackup
  import opened SyncFolder
  import opened SyncManifest
  import opened SyncRestore
  import opened Wrappers

  // ---- Staging an incoming archive

  datatype Body = Reg(bytes: Bytes) | LinkTo(target: string) | Other

  datatype TarMember = TarMember(name: Path, body: Body)

  /** The checks of writeTarMember: kind, and for a regular file also size and hash. */
  predicate Fits(e: Entry, b: Body) {
    if e.kind == Symlink then b.LinkTo? && !IsAbs(b.target)
    else b.Reg? && |b.bytes| == e.size && Sha256(b.bytes) == e.hash
  }

  function NodeFor(e: Entry, b: Body): Node {
    match b
    case Reg(bytes) => File(bytes, e.mode)
    case LinkTo(target) => Link(target)
    case Other => Dir
  }

  /** writeTarMember. A regular file that fails its hash has already been written. */
  function StageOne(t: Tree, e: Entry, b: Body): (Tree, bool) {
    var (t1, made) := MkdirParents(t, e.path);
    if made != Done then (t1, false)
    else if e.kind == Symlink then
      if !b.LinkTo? || IsAbs(b.target) then (t1, false) else
      var (u, st) := MakeLink(Remove(t1, e.path).0, e.path, b.target);
      (u, st == Done)
    else if !b.Reg? then (t1, false)
    else
      var (u, st) := WriteFile(t1, e.path, b.bytes, e.mode);
      (u, st == Done && |b.bytes| == e.size && Sha256(b.bytes) == e.hash)
  }

  datatype Staging = Staging(tree: Tree, seen: set<Path>, ok: bool)

  function Stage(members: seq<TarMember>, want: Files, strict: bool): Staging {
    if |members| == 0 then Staging(map[], {}, true)
    else
      var s, m := Stage(members[..|members| - 1], want, strict), members[|members| - 1];
      if !s.ok then s
      else if m.name !in want then s.(ok := !strict)
      else if m.name in s.seen || !ValidPath(m.name) then s.(ok := false)
      else var (u, ok) := StageOne(s.tree, want[m.name], m.body); Staging(u, s.seen + {m.name}, ok)
  }

  function Staged(members: seq<TarMember>, want: Files, strict: bool): Option<Tree> {
    var s := Stage(members, want, strict);
    if s.ok && want.Keys <= s.seen then Some(s.tree) else None
  }

  lemma {:induction false} StageStops(members: seq<TarMember>, want: Files, strict: bool, i: nat)
    requires i <= |members| && !Stage(members[..i], want, strict).ok
    ensures !Stage(members, want, strict).ok
  {
    if i < |members| {
      assert members[..|members| - 1][..i] == members[..i];
      StageStops(members[..|members| - 1], want, strict, i);
    } else {
      assert members[..i] == members;
    }
  }

  method CopyTarMembers(members: seq<TarMember>, entries: Manifest, strict: bool) returns (r: Option<Tree>)
    ensures r == Staged(members, Index(entries), strict)
  {
    hide StageOne, ValidPath, Index;
    var want := BuildIndex(entries);
    var root := new Folder(map[]);
    var seen: set<Path> := {};
    for i := 0 to |members|
      invariant Stage(members[..i], want, strict) == Staging(root.tree, seen, true)
      invariant fresh(root)
    {
      var m := members[i];
      assert members[..i + 1][..i] == members[..i];
      if m.name !in want {
        if strict {
          StageStops(members, want, strict, i + 1);
          return None;
        }
        continue;
      }
      if m.name in seen || !ValidPath(m.name) {
        StageStops(members, want, strict, i + 1);
        return None;
      }
      seen := seen + {m.name};
      var ok := WriteTarMember(root, want[m.name], m.body);
      if !ok {
        StageStops(members, want, strict, i + 1);
        return None;
      }
    }
    assert members[..|members|] == members;
    if !(want.Keys <= seen) {
      return None;
    }
    r := Some(root.tree);
  }

  method WriteTarMember(root: Folder, e: Entry, b: Body) returns (ok: bool)
    modifies root
    ensures (root.tree, ok) == StageOne(old(root.tree), e, b)
  {
    var st := root.MakeParents(e.path);
    if st != Done {
      return false;
    }
    if e.kind == Symlink {
      if !b.LinkTo? || IsAbs(b.target) {
        return false;
      }
      var _ := root.Delete(e.path);
      st := root.Put(e.path, Link(b.target));
      return st == Done;
    }
    if !b.Reg? {
      return false;
    }
    st := root.Put(e.path, File(b.bytes, e.mode));
    ok := st == Done && |b.bytes| == e.size && Sha256(b.bytes) == e.hash;
  }

  /** Members that carry wanted paths only, each once, each fitting its entry. */
  ghost predicate Good(members: seq<TarMember>, want: Files) {
    && (forall i :: 0 <= i < |members| ==>
          members[i].name in want && ValidPath(members[i].name) && Fits(want[members[i].name], members[i].body))
    && (forall i, j :: 0 <= i < j < |members| ==> members[i].name != members[j].name)
  }

  function Names(members: seq<TarMember>): set<Path> { set i | 0 <= i < |members| :: members[i].name }

  function StagedLeaves(members: seq<TarMember>, want: Files): Tree {
    if |members| == 0 then map[]
    else
      var m, rest := members[|members| - 1], StagedLeaves(members[..|members| - 1], want);
      if m.name in want then rest[m.name := NodeFor(want[m.name], m.body)] else rest
  }

  predicate Keyed(want: Files) { forall p :: p in want ==> want[p].path == p }

  lemma StageOneEffect(t: Tree, ps: set<Path>, e: Entry, b: Body)
    requires Separate(ps) && e.path in ps && Confined(map[], t, ps) && NoDirAt(t, ps) && e.path !in Leaves(t)
    ensures var (u, ok) := StageOne(t, e, b);
            && (ok <==> Fits(e, b))
            && (ok ==> Confined(map[], u, ps) && NoDirAt(u, ps) && Leaves(u) == Leaves(t)[e.path := NodeFor(e, b)])
  {
    hide Confined, Separate, IsAbs;
    MkdirConfined(map[], t, ps, e.path);
    MkdirIsFlatHere(t, ps, e.path);
    var t1 := MkdirParents(t, e.path).0;
    assert Remove(t1, e.path).0 == t1 by { RemoveIsFlatHere(t1, ps, e.path); }
    if Fits(e, b) {
      PutConfined(map[], t1, ps, e.path, NodeFor(e, b));
      PutIsFlatHere(t1, ps, e.path, NodeFor(e, b));
    }
  }

  lemma MkdirIsFlatHere(t: Tree, ps: set<Path>, p: Path)
    requires Separate(ps) && p in ps && Confined(map[], t, ps) && NoDirAt(t, ps) && p !in Leaves(t)
    ensures var u := MkdirParents(t, p).0; p !in u && NoDirAt(u, ps) && Leaves(u) == Leaves(t)
  {
    MkdirIsFlat(t, p);
  }

  lemma RemoveIsFlatHere(t: Tree, ps: set<Path>, p: Path)
    requires p in ps && Confined(map[], t, ps) && p !in t
    ensures Remove(t, p).0 == t
  {
  }

  lemma PutIsFlatHere(t: Tree, ps: set<Path>, p: Path, n: Node)
    requires Confined(map[], t, ps) && NoDirAt(t, ps) && p !in t && !n.Dir? && forall a :: a in Parents(p) ==>
               a in t && t[a].Dir?
    ensures NoDirAt(t[p := n], ps) && Leaves(t[p := n]) == Leaves(t)[p := n]
  {
    PutIsFlat(t, p, n);
  }

  lemma NamesShorter(members: seq<TarMember>)
    requires |members| > 0
    ensures Names(members) == Names(members[..|members| - 1]) + {members[|members| - 1].name}
  {
    var rest := members[..|members| - 1];
    assert forall i :: 0 <= i < |rest| ==> rest[i] == members[i];
  }

  lemma GoodShorter(members: seq<TarMember>, want: Files)
    requires |members| > 0
    ensures var n := |members| - 1;
            Good(members, want) <==>
              Good(members[..n], want) && members[n].name in want && ValidPath(members[n].name)
              && Fits(want[members[n].name], members[n].body) && members[n].name !in Names(members[..n])
  {
    var n := |members| - 1;
    var rest := members[..n];
    assert forall i :: 0 <= i < n ==> rest[i] == members[i];
  }

  lemma {:induction false} StrictStage(members: seq<TarMember>, want: Files)
    requires Keyed(want) && Separate(want.Keys)
    ensures var s := Stage(members, want, true);
            && (s.ok <==> Good(members, want))
            && (s.ok ==> s.seen == Names(members) && Confined(map[], s.tree, want.Keys) && NoDirAt(s.tree, want.Keys)
                         && Leaves(s.tree) == StagedLeaves(members, want)
                            && StagedLeaves(members, want).Keys == Names(members))
  {
    hide Confined, Separate, NoDirAt, Leaves, Good, Names, Fits, StageOne, ValidPath;
    if |members| == 0 {
      EmptyConfined(want.Keys);
      EmptyMembers(want);
    } else {
      var n := |members| - 1;
      StrictStage(members[..n], want);
      GoodShorter(members, want);
      NamesShorter(members);
      var s, m := Stage(members[..n], want, true), members[n];
      if s.ok && m.name in want && m.name !in s.seen {
        StageOneEffect(s.tree, want.Keys, want[m.name], m.body);
      }
    }
  }

  lemma EmptyMembers(want: Files)
    ensures Good([], want) && Names([]) == {}
  {
  }

  predicate Holds(leaves: Tree, want: Files, m: TarMember) {
    m.name in want && m.name in leaves && leaves[m.name] == NodeFor(want[m.name], m.body)
  }

  /** Strict staging admits an archive exactly when it carries every planned file once, each fitting its
      entry, and nothing else; the staged files are then those members. */
  lemma StrictStagingExact(members: seq<TarMember>, want: Files)
    requires Keyed(want) && Separate(want.Keys)
    ensures Staged(members, want, true).Some? <==> Good(members, want) && Names(members) == want.Keys
    ensures Staged(members, want, true).Some? ==>
              && Leaves(Staged(members, want, true).value).Keys == want.Keys
              && (forall i :: 0 <= i < |members| ==> Holds(Leaves(Staged(members, want, true).value), want, members[i]))
  {
    hide Confined, Separate, NoDirAt, Fits, ValidPath, Stage;
    StrictStage(members, want);
    if Good(members, want) {
      assert Names(members) <= want.Keys;
      StagedLeafAt(members, want);
    }
  }

  /** Staging that is not strict passes over the members that are not wanted and no others. */
  lemma {:induction false} LooseStaging(members: seq<TarMember>, want: Files)
    ensures Staged(members, want, false) == Staged(Wanted(members, want), want, true)
    ensures Stage(members, want, false) == Stage(Wanted(members, want), want, true)
  {
    hide StageOne, ValidPath, Wanted;
    WantedSnoc(members, want);
    if |members| > 0 {
      LooseStaging(members[..|members| - 1], want);
    }
  }

  lemma WantedSnoc(members: seq<TarMember>, want: Files)
    ensures |members| == 0 ==> Wanted(members, want) == []
    ensures |members| > 0 ==>
              var kept, all := Wanted(members[..|members| - 1], want), Wanted(members, want);
              if members[|members| - 1].name in want
              then |all| == |kept| + 1 && all[..|kept|] == kept && all[|kept|] == members[|members| - 1]
              else all == kept
  {
  }

  function Wanted(members: seq<TarMember>, want: Files): (r: seq<TarMember>)
    ensures forall m :: m in r <==> m in members && m.name in want
  {
    if |members| == 0 then []
    else
      var m := members[|members| - 1];
      assert members == members[..|members| - 1] + [m];
      Wanted(members[..|members| - 1], want) + (if m.name in want then [m] else [])
  }

  lemma {:induction false} StagedLeafAt(members: seq<TarMember>, want: Files)
    requires Good(members, want)
    ensures forall i :: 0 <= i < |members| ==> Holds(StagedLeaves(members, want), want, members[i])
  {
    hide ValidPath, Fits;
    if |members| > 0 {
      StagedLeafAt(members[..|members| - 1], want);
    }
  }

  /** A regular file that was staged is the planned one, byte for byte; a link may point anywhere relative,
      since its hash is not looked at. */
  lemma FileVerifiedLinkNot(e: Entry, bytes: Bytes, target: string)
    ensures e.kind == RegularFile && Fits(e, Reg(bytes)) ==> Describes(e, NodeFor(e, Reg(bytes)))
    ensures e.kind == Symlink && !IsAbs(target) ==>
              Fits(e, LinkTo(target)) && (Describes(e, NodeFor(e, LinkTo(target))) <==> e.hash == Sha256(target))
  {
  }

  // ---- The manifest of a folder

  /** Permission bits reported for a symbolic link; no call sets them. */
  const LINK_MODE := 511

  function EntryFor(p: Path, n: Node): Entry {
    match n
    case File(bytes, mode) => Entry(p, |bytes|, mode, RegularFile, Sha256(bytes))
    case Link(target) => Entry(p, 0, LINK_MODE, Symlink, Sha256(target))
    case Dir => Entry(p, 0, 0, RegularFile, Sha256(""))
  }

  /** The listed paths that are valid and still name a file or link. */
  function Covered(t: Tree, listed: seq<Path>): seq<Path> {
    if |listed| == 0 then []
    else
      var p := listed[|listed| - 1];
      Covered(t, listed[..|listed| - 1]) + (if ValidPath(p) && IsLeaf(t, p) then [p] else [])
  }

  function FilesAt(t: Tree, ps: set<Path>): Files { map p | p in ps && p in t :: EntryFor(p, t[p]) }

  function PathSet(ps: seq<Path>): set<Path> { set i | 0 <= i < |ps| :: ps[i] }

  predicate NoRepeats(ps: seq<Path>) { forall i, j :: 0 <= i < j < |ps| ==> ps[i] != ps[j] }

  lemma {:induction false} CoveredAreLeaves(t: Tree, listed: seq<Path>)
    ensures forall p :: p in Covered(t, listed) <==> p in listed && ValidPath(p) && IsLeaf(t, p)
  {
    if |listed| > 0 {
      CoveredAreLeaves(t, listed[..|listed| - 1]);
      assert listed == listed[..|listed| - 1] + [listed[|listed| - 1]];
    }
  }

  /** `listed` is what git reports; None when git failed. A path reported twice is refused by Normalize. */
  method BuildManifest(dir: Folder, listed: Option<seq<Path>>) returns (r: Option<Manifest>)
    ensures r.Some? <==> listed.Some? && NoRepeats(Covered(dir.tree, listed.value))
    ensures r.Some? ==> Index(r.value) == FilesAt(dir.tree, PathSet(Covered(dir.tree, listed.value)))
  {
    if listed.None? {
      return None;
    }
    var paths := listed.value;
    ghost var kept := Covered(dir.tree, paths);
    var m: Manifest := [];
    for i := 0 to |paths|
      invariant |m| == |Covered(dir.tree, paths[..i])|
      invariant forall j :: 0 <= j < |m| ==> Covered(dir.tree, paths[..i])[j] in dir.tree
      invariant forall j :: 0 <= j < |m| ==>
                  m[j] == EntryFor(Covered(dir.tree, paths[..i])[j], dir.tree[Covered(dir.tree, paths[..i])[j]])
    {
      assert paths[..i + 1][..i] == paths[..i];
      if !ValidPath(paths[i]) || paths[i] !in dir.tree || dir.tree[paths[i]].Dir? {
        continue;
      }
      m := m + [EntryFor(paths[i], dir.tree[paths[i]])];
    }
    assert paths[..|paths|] == paths;
    CoveredAreLeaves(dir.tree, paths);
    assert forall j :: 0 <= j < |m| ==> m[j].path == kept[j] && kept[j] in kept;
    assert DistinctPaths(m) <==> NoRepeats(kept);
    assert forall e :: e in m ==> ValidPath(e.path);
    r := Normalize(m);
    if r.Some? {
      EntriesIndex(dir.tree, kept, m);
    }
  }

  lemma EntryPaths(t: Tree, kept: seq<Path>, m: Manifest)
    requires |m| == |kept| && forall j :: 0 <= j < |m| ==> kept[j] in t && m[j] == EntryFor(kept[j], t[kept[j]])
    ensures forall j :: 0 <= j < |m| ==> m[j].path == kept[j]
  {
  }

  lemma EntriesIndex(t: Tree, kept: seq<Path>, m: Manifest)
    requires |m| == |kept| && forall j :: 0 <= j < |m| ==> kept[j] in t && m[j] == EntryFor(kept[j], t[kept[j]])
    ensures Index(m) == FilesAt(t, PathSet(kept))
  {
    hide EntryFor;
    IndexKeys(m);
    assert forall j :: 0 <= j < |m| ==> m[j].path == kept[j] by { EntryPaths(t, kept, m); }
    forall p | p in FilesAt(t, PathSet(kept)) ensures p in Index(m) {
      var j :| 0 <= j < |kept| && kept[j] == p;
      assert m[j].path == p;
    }
  }

  // ---- The transaction

  datatype Plan = Plan(manifest: Manifest, ops: seq<Op>)

  datatype Ending =
    | Succeeded
    | NotStaged                      // the transfer or the strict staging failed
    | NotBackedUp
    | ApplyFailed(restored: bool)
    | Unlisted                       // the folder could not be listed again
    | Mismatch(restored: bool)

  /** What goes wrong on the laptop: whether the archive can be written, what each op meets, whether the archive can be
      read back, and what each restored entry meets. */
  datatype Mishaps = Mishaps(saves: bool, ops: seq<Fault>, opens: bool, back: seq<Fault>)

  const NO_MISHAPS := Mishaps(true, [], true, [])

  /** Nothing goes wrong up to the end of the apply. */
  predicate Unfailing(f: Mishaps, n: nat) { f.saves && Faultless(f.ops, n) }

  /** Nothing goes wrong in the restore. */
  predicate Unhurt(f: Mishaps, n: nat) { f.opens && Faultless(f.back, n) }

  /** What receive returns (an archive to point the user at, and how it ended) and the tree it leaves.
      `git` lists the covered paths of a tree. */
  function Received(t: Tree, plan: Plan, local: Manifest, payload: Option<seq<TarMember>>, f: Mishaps,
                    git: Tree -> Option<seq<Path>>): (Tree, Option<Archive>, Ending) {
    var want := Index(plan.manifest);
    var staged := if payload.Some? then Staged(payload.value, Index(Transfer(want, plan.ops)), true) else None;
    if staged.None? then (t, None, NotStaged) else
    var backup := Backup(t, Index(local), plan.ops);
    if backup.None? || !f.saves then (t, None, NotBackedUp) else
    var (u, applied) := Apply(t, staged.value, want, plan.ops, f.ops, |plan.ops|);
    if !applied then var (v, ok) := RestoreWith(u, backup.value, f.opens, f.back); (v, backup, ApplyFailed(ok)) else
    var listed := git(u);
    if listed.None? || !NoRepeats(Covered(u, listed.value)) then (u, backup, Unlisted)
    else if Matches(want, FilesAt(u, PathSet(Covered(u, listed.value)))) then (u, backup, Succeeded)
    else var (v, ok) := RestoreWith(u, backup.value, f.opens, f.back); (v, backup, Mismatch(ok))
  }

  method Receive(dir: Folder, plan: Plan, local: Manifest, payload: Option<seq<TarMember>>, f: Mishaps,
                 git: Tree -> Option<seq<Path>>) returns (archive: Option<Archive>, end: Ending)
    modifies dir
    ensures (dir.tree, archive, end) == Received(old(dir.tree), plan, local, payload, f, git)
  {
    var entries := TransferSet(plan.manifest, plan.ops);
    if payload.None? {
      return None, NotStaged;
    }
    var staged := CopyTarMembers(payload.value, entries, true);
    if staged.None? {
      return None, NotStaged;
    }
    archive := WriteBackup(dir, local, plan.ops);
    if archive.None? || !f.saves {
      return None, NotBackedUp;
    }
    var applied := ApplyLocal(dir, staged.value, plan.manifest, plan.ops, f.ops);
    if !applied {
      var ok := RestoreLocal(archive.value, dir, f.opens, f.back);
      return archive, ApplyFailed(ok);
    }
    var got := BuildManifest(dir, git(dir.tree));
    if got.None? {
      return archive, Unlisted;
    }
    var same := Compare(plan.manifest, got.value);
    if !same {
      var ok := RestoreLocal(archive.value, dir, f.opens, f.back);
      return archive, Mismatch(ok);
    }
    return archive, Succeeded;
  }

  /** Success means the covered folder is the plan's manifest, path for path; nothing at all was changed
      if the archive was never written. */
  lemma SuccessMeansPlan(t: Tree, plan: Plan, local: Manifest, payload: Option<seq<TarMember>>, f: Mishaps,
                         git: Tree -> Option<seq<Path>>)
    ensures var (u, archive, end) := Received(t, plan, local, payload, f, git);
            && (end == Succeeded ==> git(u).Some? && archive.Some?)
            && (end == Succeeded ==> forall p :: p in Index(plan.manifest) <==>
                p in git(u).value && ValidPath(p) && IsLeaf(u, p))
            && (end == Succeeded ==> forall p :: p in Index(plan.manifest) ==>
               p in u && Describes(Index(plan.manifest)[p], u[p]))
            && (archive.None? <==> end == NotStaged || end == NotBackedUp)
            && (archive.None? ==> u == t)
            && (archive.Some? ==> archive == Backup(t, Index(local), plan.ops))
  {
    hide Staged, Backup, Apply, RestoreWith, ValidPath;
    var (u, archive, end) := Received(t, plan, local, payload, f, git);
    if end == Succeeded {
      CoveredAreLeaves(u, git(u).value);
      var got := FilesAt(u, PathSet(Covered(u, git(u).value)));
      forall p ensures p in got <==> p in git(u).value && ValidPath(p) && IsLeaf(u, p) {
        assert p in PathSet(Covered(u, git(u).value)) <==> p in Covered(u, git(u).value);
      }
    }
  }

  /** After any failure past the backup, except a failed listing, the archive is restored, whatever op failed,
      half-way or not, and whatever the comparison found: the original files are back except that a file which the
      manifest did not know at an added path is lost. `w` is what the apply left; when the restore meets no fault, the
      files are exactly the original ones if and only if no saved link is absolute and nothing unlisted lay at an
      added path, or a saved link is absolute and the apply had changed nothing. When it does, restoring the archive
      again still gives what it should have. */
  lemma FailureRollsBack(t: Tree, plan: Plan, local: Manifest, members: seq<TarMember>, f: Mishaps,
                         git: Tree -> Option<seq<Path>>)
    requires Planned(t, Index(local), plan.ops)
    ensures var (u, archive, end) := Received(t, plan, local, Some(members), f, git);
            var staged := Staged(members, Index(Transfer(Index(plan.manifest), plan.ops)), true);
            && (end == NotBackedUp <==> staged.Some? && !f.saves)
            && (end.ApplyFailed? || end.Mismatch? ==>
                  && staged.Some? && archive.Some?
                  && var w := Apply(t, staged.value, Index(plan.manifest), plan.ops, f.ops, |plan.ops|).0;
                  && (end.restored <==> !SavesAbsoluteLink(t, plan.ops) && Unhurt(f, |plan.ops|))
                  && (end.restored ==> Leaves(u) == Leaves(t) - AddedPaths(plan.ops))
                  && (Unhurt(f, |plan.ops|) ==>
                        (Leaves(u) == Leaves(t)
                         <==> if SavesAbsoluteLink(t, plan.ops) then Leaves(w) == Leaves(t)
                             else AddsFresh(t, plan.ops)))
                  && Confined(t, u, Paths(plan.ops))
                  && (Restore(u, archive.value).1 <==> !SavesAbsoluteLink(t, plan.ops))
                  && (Restore(u, archive.value).1 ==>
                        Leaves(Restore(u, archive.value).0) == Leaves(t) - AddedPaths(plan.ops)))
  {
    hide Staged, Backup, Apply, Restore, RestoreWith, SavesAbsoluteLink, Confined, Matches, Leaves, AddedPaths,
      AddsFresh, Planned, Faultless;
    SelfConfined(t, Index(local), plan.ops);
    RestoreUndoes(t, t, Index(local), plan.ops);
    var want := Index(plan.manifest);
    var staged := Staged(members, Index(Transfer(want, plan.ops)), true);
    if staged.Some? {
      var w := Apply(t, staged.value, want, plan.ops, f.ops, |plan.ops|).0;
      PlannedApplyConfined(t, staged.value, want, Index(local), plan.ops, f.ops);
      RestoreEnds(t, w, Index(local), plan.ops, f);
    }
  }

  /** Where the restore leaves the folder, faults of its own included. */
  lemma RestoreEnds(t: Tree, w: Tree, target: Files, ops: seq<Op>, f: Mishaps)
    requires Planned(t, target, ops) && Confined(t, w, Paths(ops))
    ensures Backup(t, target, ops).Some?
    ensures var a := Backup(t, target, ops).value;
            var (u, ok) := RestoreWith(w, a, f.opens, f.back);
            && (ok <==> !SavesAbsoluteLink(t, ops) && Unhurt(f, |ops|))
            && (ok ==> Leaves(u) == Leaves(t) - AddedPaths(ops))
            && (Unhurt(f, |ops|) ==>
                  (Leaves(u) == Leaves(t) <==> if SavesAbsoluteLink(t, ops) then Leaves(w) == Leaves(t)
                      else AddsFresh(t, ops)))
            && Confined(t, u, Paths(ops))
            && (Restore(u, a).1 <==> !SavesAbsoluteLink(t, ops))
            && (Restore(u, a).1 ==> Leaves(Restore(u, a).0) == Leaves(t) - AddedPaths(ops))
  {
    hide Restore, RestoreWith, SavesAbsoluteLink, Confined, Leaves, AddedPaths, AddsFresh, Planned, Faultless, Meta,
      Members;
    InterruptedRestore(t, w, target, ops, f.opens, f.back);
    RestoresExactlyWhen(t, w, target, ops);
    RestoreUndoes(t, w, target, ops);
    PlannedIsListedHere(t, target, ops);
    RestoreFaultsShow(w, Backup(t, target, ops).value, f.opens, f.back);
  }

  lemma PlannedIsListedHere(t: Tree, target: Files, ops: seq<Op>)
    requires Planned(t, target, ops)
    ensures |Meta(target, ops)| == |ops|
  {
    hide Meta, Hashed;
    PlannedIsListed(t, target, ops);
    MetaShape(t, target, ops);
  }

  lemma SelfConfined(t: Tree, target: Files, ops: seq<Op>)
    requires Planned(t, target, ops)
    ensures Confined(t, t, Paths(ops))
  {
  }

  lemma PlannedApplyConfined(t: Tree, staged: Tree, source: Files, target: Files, ops: seq<Op>, faults: seq<Fault>)
    requires Planned(t, target, ops)
    ensures Confined(t, Apply(t, staged, source, ops, faults, |ops|).0, Paths(ops))
  {
    ApplyConfined(t, staged, source, ops, faults, |ops|);
  }

  // ---- A download in which nothing goes wrong

  lemma TransferIndex(source: Files, ops: seq<Op>)
    requires Keyed(source)
    ensures var want := Index(Transfer(source, ops));
            && Keyed(want) && want.Keys <= Paths(ops)
            && (forall p :: p in want ==> p in source && want[p] == source[p])
            && (forall op :: op in ops && op.action != Deleted && op.path in source ==> op.path in want)
            && (forall p :: p in want ==> exists op :: op in ops && op.action != Deleted && op.path == p)
  {
    var m := Transfer(source, ops);
    TransferMembers(source, ops);
    IndexKeys(m);
    forall p | p in Index(m)
      ensures p in source && Index(m)[p] == source[p] && p in Paths(ops)
      ensures exists op :: op in ops && op.action != Deleted && op.path == p
    {
      assert Index(m)[p] in m;
      var i :| 0 <= i < |ops| && ops[i].action != Deleted && ops[i].path in source
          && source[ops[i].path] == Index(m)[p];
      assert ops[i] in ops;
    }
    forall op | op in ops && op.action != Deleted && op.path in source ensures op.path in Index(m) {
      assert source[op.path] in m;
    }
  }

  /** The links among the members were staged as they came. */
  predicate LinksAt(t: Tree, members: seq<TarMember>) {
    forall i :: 0 <= i < |members| && members[i].body.LinkTo? ==>
      members[i].name in t && t[members[i].name] == Link(members[i].body.target)
  }

  /** What strict staging admitted is of the planned kinds, with the planned bytes in regular files. */
  lemma StagedIsPlanned(members: seq<TarMember>, source: Files, ops: seq<Op>)
    requires Keyed(source) && Separate(Paths(ops))
    requires forall op :: op in ops && op.action != Deleted ==> op.path in source
    requires Staged(members, Index(Transfer(source, ops)), true).Some?
    ensures var staged := Staged(members, Index(Transfer(source, ops)), true).value;
            && StagedFor(staged, source, ops) && LinksAt(staged, members) && LinkMembers(source, members)
            && (forall op :: op in ops && op.action != Deleted && source[op.path].kind == RegularFile ==>
                  HashOf(staged[op.path]) == source[op.path].hash)
            && (forall i :: 0 <= i < |members| ==>
                  Op(members[i].name, Added) in ops || Op(members[i].name, Overwritten) in ops)
            && (forall op :: op in ops && op.action != Deleted ==> op.path in Names(members))
  {
    hide Staged, ValidPath, Transfer, Stage;
    var want := Index(Transfer(source, ops));
    TransferIndex(source, ops);
    assert Separate(want.Keys) by { SeparateSubset(Paths(ops), want.Keys); }
    StrictStagingExact(members, want);
    var staged := Staged(members, want, true).value;
    forall op | op in ops && op.action != Deleted
      ensures op.path in Names(members) && op.path in staged && KindOf(staged[op.path], source[op.path].kind)
      ensures source[op.path].kind == RegularFile ==> HashOf(staged[op.path]) == source[op.path].hash
    {
      assert op.path in Names(members);
      var i :| 0 <= i < |members| && members[i].name == op.path;
      assert Holds(Leaves(staged), want, members[i]);
    }
    forall i | 0 <= i < |members|
      ensures members[i].body.LinkTo? ==>
                members[i].name in staged && staged[members[i].name] == Link(members[i].body.target)
      ensures Op(members[i].name, Added) in ops || Op(members[i].name, Overwritten) in ops
      ensures members[i].name in source && (source[members[i].name].kind == Symlink <==> members[i].body.LinkTo?)
    {
      assert Fits(want[members[i].name], members[i].body);
      assert Holds(Leaves(staged), want, members[i]);
      var op :| op in ops && op.action != Deleted && op.path == members[i].name;
      assert op == Op(op.path, Added) || op == Op(op.path, Overwritten);
    }
  }

  lemma SeparateSubset(ps: set<Path>, qs: set<Path>)
    requires Separate(ps) && qs <= ps
    ensures Separate(qs)
  {
  }

  predicate LinkMembers(source: Files, members: seq<TarMember>) {
    forall i :: 0 <= i < |members| && members[i].name in source ==>
      (source[members[i].name].kind == Symlink <==> members[i].body.LinkTo?)
  }

  /** `u` is what a download should make of `t`: planned files as described, transferred links as they came, unlisted
      leaves and unchanged ones as before, and nothing at a deleted path. */
  ghost predicate Downloaded(t: Tree, u: Tree, source: Files, target: Files, members: seq<TarMember>) {
    && (forall p :: p in source ==>
          IsLeaf(u, p) && KindAndMode(source[p], u[p])
              && (source[p].kind == RegularFile ==> HashOf(u[p]) == source[p].hash))
    && LinksAt(u, members)
    && (forall p :: p in target && p !in source ==> !IsLeaf(u, p))
    && (forall p :: Change(source, target, p).None? ==>
          (IsLeaf(u, p) <==> IsLeaf(t, p)) && (IsLeaf(u, p) ==> u[p] == t[p]))
    && (forall p :: Change(source, target, p).Some? && p in source ==> p in Names(members))
    && LinkMembers(source, members)
  }

  /** The tree that a plan makes of `t` when no op fails. */
  function NewTree(t: Tree, plan: Plan, members: seq<TarMember>): Tree {
    var staged := Staged(members, Index(Transfer(Index(plan.manifest), plan.ops)), true);
    if staged.None? then t else Apply(t, staged.value, Index(plan.manifest), plan.ops, [], |plan.ops|).0
  }

  predicate Stages(plan: Plan, members: seq<TarMember>) {
    Staged(members, Index(Transfer(Index(plan.manifest), plan.ops)), true).Some?
  }

  /** A plan that is staged and meets no fault is applied to the end. */
  lemma CleanApply(t: Tree, plan: Plan, local: Manifest, members: seq<TarMember>)
    requires Planned(t, Index(local), plan.ops) && IsDiff(plan.ops, Index(plan.manifest), Index(local))
    requires Stages(plan, members)
    ensures var staged := Staged(members, Index(Transfer(Index(plan.manifest), plan.ops)), true).value;
            Apply(t, staged, Index(plan.manifest), plan.ops, [], |plan.ops|) == (NewTree(t, plan, members), true)
    ensures Downloaded(t, NewTree(t, plan, members), Index(plan.manifest), Index(local), members)
  {
    hide Staged, Apply, Planned, IsDiff, StagedFor, Transfer, Downloaded, Keyed;
    var source := Index(plan.manifest);
    assert Keyed(source) by { ManifestKeyed(plan.manifest); }
    PlannedSeparate(t, Index(local), plan.ops);
    DiffPathsInSource(source, Index(local), plan.ops);
    StagedIsPlanned(members, source, plan.ops);
    var staged := Staged(members, Index(Transfer(source, plan.ops)), true).value;
    ApplyDiffGivesStaged(t, staged, source, Index(local), plan.ops);
    AppliedIsDownloaded(t, NewTree(t, plan, members), staged, source, Index(local), plan.ops, members);
  }

  lemma ManifestKeyed(m: Manifest)
    ensures Keyed(Index(m))
  {
    IndexKeys(m);
  }

  lemma AppliedIsDownloaded(t: Tree, u: Tree, staged: Tree, source: Files, target: Files, ops: seq<Op>,
                            members: seq<TarMember>)
    requires Planned(t, target, ops) && IsDiff(ops, source, target)
    requires StagedFor(staged, source, ops) && LinksAt(staged, members) && LinkMembers(source, members)
    requires forall op :: op in ops && op.action != Deleted && source[op.path].kind == RegularFile ==>
               HashOf(staged[op.path]) == source[op.path].hash
    requires forall i :: 0 <= i < |members| ==>
               Op(members[i].name, Added) in ops || Op(members[i].name, Overwritten) in ops
    requires forall op :: op in ops && op.action != Deleted ==> op.path in Names(members)
    requires forall p ::
               match Change(source, target, p)
               case Some(Deleted) => !IsLeaf(u, p)
               case Some(_) => p in staged && IsLeaf(u, p) && u[p] == Copied(staged[p], source[p].mode)
               case None => (IsLeaf(u, p) <==> IsLeaf(t, p)) && (IsLeaf(u, p) ==> u[p] == t[p])
    ensures Downloaded(t, u, source, target, members)
  {
    hide PrefixFree, DistinctOps, WellFormed, ValidPath, StrictlySorted, Names;
    forall p | p in source
      ensures IsLeaf(u, p) && KindAndMode(source[p], u[p])
                && (source[p].kind == RegularFile ==> HashOf(u[p]) == source[p].hash)
      ensures Change(source, target, p).Some? ==> p in Names(members)
    {
      if Change(source, target, p).Some? {
        assert Op(p, Change(source, target, p).value) in ops;
      } else {
        assert IsLeaf(t, p) && Describes(target[p], t[p]);
      }
    }
    forall i | 0 <= i < |members| && members[i].body.LinkTo?
      ensures members[i].name in u && u[members[i].name] == Link(members[i].body.target)
    {
      var p := members[i].name;
      assert Change(source, target, p) == Some(Added) || Change(source, target, p) == Some(Overwritten);
    }
  }

  /** An apply reports success only if nothing went wrong, and then it is the clean one. */
  lemma {:induction false} FaultsShow(t: Tree, staged: Tree, source: Files, ops: seq<Op>, faults: seq<Fault>, i: nat)
    requires i <= |ops|
    ensures Apply(t, staged, source, ops, faults, i).1 ==> Faultless(faults, i)
    ensures Faultless(faults, i) ==> Apply(t, staged, source, ops, faults, i) == Apply(t, staged, source, ops, [], i)
  {
    if i > 0 {
      FaultsShow(t, staged, source, ops, faults, i - 1);
      FaultyOneFails(Apply(t, staged, source, ops, faults, i - 1).0, staged, source, ops[i - 1],
          FaultAt(faults, i - 1));
      assert FaultAt([], i - 1) == NoFault;
      assert Faultless(faults, i) ==> Faultless(faults, i - 1);
    }
  }

  lemma FaultyOneFails(t: Tree, staged: Tree, source: Files, op: Op, f: Fault)
    ensures f != NoFault ==> !ApplyOne(t, staged, source, op, f).1
  {
  }

  /** No path that is valid and names a file or link is listed twice. */
  predicate ListedOnce(u: Tree, listed: seq<Path>) {
    forall i, j :: 0 <= i < j < |listed| && listed[i] == listed[j] ==> !(ValidPath(listed[i]) && IsLeaf(u, listed[i]))
  }

  /** The new tree could be listed, and no path twice. */
  predicate Listable(u: Tree, listed: Option<seq<Path>>) { listed.Some? && ListedOnce(u, listed.value) }

  lemma {:induction false} CoveredOnce(u: Tree, listed: seq<Path>)
    ensures NoRepeats(Covered(u, listed)) <==> ListedOnce(u, listed)
  {
    hide ValidPath, IsLeaf;
    if |listed| > 0 {
      var n := |listed| - 1;
      var rest := listed[..n];
      CoveredOnce(u, rest);
      CoveredAreLeaves(u, rest);
      ListedOnceSnoc(u, listed);
      if ValidPath(listed[n]) && IsLeaf(u, listed[n]) {
        SnocRepeats(Covered(u, rest), listed[n]);
      } else {
        assert Covered(u, listed) == Covered(u, rest);
      }
    }
  }

  lemma ListedOnceSnoc(u: Tree, listed: seq<Path>)
    requires |listed| > 0
    ensures var rest, p := listed[..|listed| - 1], listed[|listed| - 1];
            ListedOnce(u, listed) <==> ListedOnce(u, rest) && (ValidPath(p) && IsLeaf(u, p) ==> p !in rest)
  {
    hide ValidPath, IsLeaf;
    var n := |listed| - 1;
    var rest := listed[..n];
    assert forall i :: 0 <= i < n ==> rest[i] == listed[i] && listed[i] in rest;
  }

  lemma SnocRepeats(ps: seq<Path>, p: Path)
    ensures NoRepeats(ps + [p]) <==> NoRepeats(ps) && p !in ps
  {
    var qs := ps + [p];
    assert forall i :: 0 <= i < |ps| ==> qs[i] == ps[i];
    assert qs[|ps|] == p;
    if NoRepeats(qs) {
      assert forall i :: 0 <= i < |ps| ==> qs[i] != qs[|ps|];
    }
  }

  /** How a staged plan ends, in terms of the tree that its clean apply gives. */
  lemma EndingOf(t: Tree, plan: Plan, local: Manifest, members: seq<TarMember>, f: Mishaps,
                 git: Tree -> Option<seq<Path>>)
    requires Planned(t, Index(local), plan.ops) && IsDiff(plan.ops, Index(plan.manifest), Index(local))
    ensures var (v, archive, end) := Received(t, plan, local, Some(members), f, git);
            var u := NewTree(t, plan, members);
            && (end == NotStaged <==> !Stages(plan, members))
            && (end == NotBackedUp <==> Stages(plan, members) && !f.saves)
            && (end.ApplyFailed? <==> Stages(plan, members) && f.saves && !Faultless(f.ops, |plan.ops|))
            && (Stages(plan, members) && Unfailing(f, |plan.ops|) ==>
                  && Downloaded(t, u, Index(plan.manifest), Index(local), members)
                  && (end == Unlisted <==> !Listable(u, git(u)))
                  && (end == Succeeded <==>
                      Listable(u, git(u))
                      && Matches(Index(plan.manifest), FilesAt(u, PathSet(Covered(u, git(u).value)))))
                  && (end == Unlisted || end == Succeeded ==> v == u && archive.Some?))
  {
    hide Staged, Apply, Backup, Restore, RestoreWith, Planned, IsDiff, Covered, NoRepeats, FilesAt, Matches,
      Downloaded, Faultless, PathSet, ListedOnce;
    SelfConfined(t, Index(local), plan.ops);
    RestoreUndoes(t, t, Index(local), plan.ops);
    if Stages(plan, members) {
      var staged := Staged(members, Index(Transfer(Index(plan.manifest), plan.ops)), true).value;
      CleanApply(t, plan, local, members);
      FaultsShow(t, staged, Index(plan.manifest), plan.ops, f.ops, |plan.ops|);
      var u := NewTree(t, plan, members);
      if git(u).Some? {
        CoveredOnce(u, git(u).value);
      }
    }
  }

  /** A download ends unlisted if and only if its members were staged, no op failed and the new tree could not be
      listed, or with a path twice. The new tree is then left in place, as the plan describes it, with only the
      archive reported. */
  lemma UnlistedKeepsNewTree(t: Tree, plan: Plan, local: Manifest, members: seq<TarMember>, f: Mishaps,
                             git: Tree -> Option<seq<Path>>)
    requires Planned(t, Index(local), plan.ops) && IsDiff(plan.ops, Index(plan.manifest), Index(local))
    ensures var (v, archive, end) := Received(t, plan, local, Some(members), f, git);
            var u := NewTree(t, plan, members);
            && (end == Unlisted <==> Stages(plan, members) && Unfailing(f, |plan.ops|) && !Listable(u, git(u)))
            && (end == Unlisted ==> archive.Some? && Downloaded(t, v, Index(plan.manifest), Index(local), members))
  {
    hide Received, Planned, IsDiff, Stages, Faultless, Downloaded, NewTree, Listable;
    EndingOf(t, plan, local, members, f, git);
  }

  /** The planned links can be made here: they carry the permission bits this system reports for links, and those
      transferred hash to what the manifest says. */
  predicate LinksMatch(source: Files, members: seq<TarMember>) {
    && (forall p :: p in source && source[p].kind == Symlink ==> source[p].mode == 511)
    && (forall i :: 0 <= i < |members| && members[i].body.LinkTo? && members[i].name in source ==>
          Sha256(members[i].body.target) == source[members[i].name].hash)
  }

  /** git lists exactly the planned paths. */
  ghost predicate ListsExactly(u: Tree, listed: Option<seq<Path>>, source: Files) {
    Listable(u, listed) && forall p :: p in source <==> p in listed.value && ValidPath(p) && IsLeaf(u, p)
  }

  /** A download whose members are staged, with no fault and with git listing exactly the planned paths in the tree it
      makes, succeeds if and only if the links match. Otherwise it ends in a mismatch. */
  lemma CleanDownloadIff(t: Tree, plan: Plan, local: Manifest, members: seq<TarMember>, git: Tree -> Option<seq<Path>>)
    requires Planned(t, Index(local), plan.ops) && IsDiff(plan.ops, Index(plan.manifest), Index(local))
               && Stages(plan, members)
    requires ListsExactly(NewTree(t, plan, members), git(NewTree(t, plan, members)), Index(plan.manifest))
    ensures Received(t, plan, local, Some(members), NO_MISHAPS, git).2
            == if LinksMatch(Index(plan.manifest), members) then Succeeded
                else Mismatch(!SavesAbsoluteLink(t, plan.ops))
  {
    hide Received, Planned, IsDiff, Stages, Downloaded, NewTree, Covered, NoRepeats, LinksMatch, Matches, FilesAt,
      PathSet, SavesAbsoluteLink, Confined, Accurate, Leaves, AddedPaths, AddsFresh;
    var u := NewTree(t, plan, members);
    assert Unfailing(NO_MISHAPS, |plan.ops|) && Unhurt(NO_MISHAPS, |plan.ops|);
    EndingOf(t, plan, local, members, NO_MISHAPS, git);
    FailureRollsBack(t, plan, local, members, NO_MISHAPS, git);
    PlannedIsAccurate(t, Index(local), plan.ops);
    CoveredAreLeaves(u, git(u).value);
    DownloadedMatches(t, u, Index(plan.manifest), Index(local), members, Covered(u, git(u).value));
  }

  /** The hash in a container's manifest: for a link, of what readlink prints, its newline included. */
  function ContainerHash(n: Node): Hash { if n.Link? then Sha256(n.target + "\n") else HashOf(n) }

  /** A link that comes as it is in the container, under the container's hash, is staged and applied but never matches.
      Without another fault the download ends in a mismatch, and the files are restored as after any failure. */
  lemma ContainerLinkNeverMatches(t: Tree, plan: Plan, local: Manifest, members: seq<TarMember>, f: Mishaps,
                                  git: Tree -> Option<seq<Path>>, i: nat)
    requires Planned(t, Index(local), plan.ops) && IsDiff(plan.ops, Index(plan.manifest), Index(local))
    requires i < |members| && members[i].body.LinkTo? && members[i].name in Index(plan.manifest)
    requires Index(plan.manifest)[members[i].name].hash == ContainerHash(Link(members[i].body.target))
    ensures var (v, archive, end) := Received(t, plan, local, Some(members), f, git);
            && end != Succeeded
            && (Stages(plan, members) && Unfailing(f, |plan.ops|)
                && Listable(NewTree(t, plan, members), git(NewTree(t, plan, members)))
                ==> end == Mismatch(!SavesAbsoluteLink(t, plan.ops) && Unhurt(f, |plan.ops|))
                    && (end.restored ==> Leaves(v) == Leaves(t) - AddedPaths(plan.ops)))
  {
    hide Received, Planned, IsDiff, Stages, NewTree, Faultless, Covered, NoRepeats, FilesAt, PathSet, Confined,
      SavesAbsoluteLink, Leaves, AddedPaths, AddsFresh, Matches, Downloaded, ContainerHash, Apply, Staged, Index,
      Transfer;
    EndingOf(t, plan, local, members, f, git);
    FailureRollsBack(t, plan, local, members, f, git);
    var u := NewTree(t, plan, members);
    if Stages(plan, members) && Unfailing(f, |plan.ops|) && git(u).Some? {
      LinkDiffers(t, u, Index(plan.manifest), Index(local), members, i, PathSet(Covered(u, git(u).value)));
    }
  }

  lemma LinkDiffers(t: Tree, u: Tree, source: Files, target: Files, members: seq<TarMember>, i: nat, ps: set<Path>)
    requires Downloaded(t, u, source, target, members) && i < |members| && members[i].body.LinkTo?
    requires members[i].name in source && source[members[i].name].hash == ContainerHash(Link(members[i].body.target))
    ensures !Matches(source, FilesAt(u, ps))
  {
    var p, target := members[i].name, members[i].body.target;
    assert u[p] == Link(target) && |target + "\n"| != |target|;
  }

  lemma PlannedIsAccurate(t: Tree, target: Files, ops: seq<Op>)
    requires Planned(t, target, ops)
    ensures Accurate(t, target)
  {
  }

  lemma DownloadedMatches(t: Tree, u: Tree, source: Files, target: Files, members: seq<TarMember>, kept: seq<Path>)
    requires Accurate(t, target) && Downloaded(t, u, source, target, members)
    requires forall p :: p in kept <==> p in source
    ensures Matches(source, FilesAt(u, PathSet(kept))) <==> LinksMatch(source, members)
  {
    hide ValidPath, Change;
    var got := FilesAt(u, PathSet(kept));
    forall p ensures p in got <==> p in source {
      assert p in PathSet(kept) <==> p in kept;
    }
    forall p | p in source
      ensures SameContent(source[p], got[p]) <==>
                (source[p].kind == Symlink ==> source[p].mode == LINK_MODE && HashOf(u[p]) == source[p].hash)
    {
    }
    if LinksMatch(source, members) {
      forall p | p in source && source[p].kind == Symlink ensures HashOf(u[p]) == source[p].hash {
        LinkHash(t, u, source, target, members, p);
      }
    }
  }

  lemma LinkHash(t: Tree, u: Tree, source: Files, target: Files, members: seq<TarMember>, p: Path)
    requires Accurate(t, target) && Downloaded(t, u, source, target, members) && LinksMatch(source, members)
    requires p in source && source[p].kind == Symlink
    ensures HashOf(u[p]) == source[p].hash
  {
    hide ValidPath;
    if Change(source, target, p).Some? {
      var i :| 0 <= i < |members| && members[i].name == p;
      assert members[i].body.LinkTo?;
    } else {
      assert IsLeaf(t, p) && Describes(target[p], t[p]);
    }
  }

  lemma PlannedSeparate(t: Tree, target: Files, ops: seq<Op>)
    requires Planned(t, target, ops)
    ensures Separate(Paths(ops))
  {
  }

  lemma DiffPathsInSource(source: Files, target: Files, ops: seq<Op>)
    requires IsDiff(ops, source, target)
    ensures forall op :: op in ops && op.action != Deleted ==> op.path in source
  {
  }
}
