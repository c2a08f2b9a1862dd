/** The upload as a transaction (service.go and container.go in server/internal/sync) and when it is taken back. */
module SyncSend {
  import opened SyncBackup
  import opened SyncFolder
  import opened SyncManifest
  import opened SyncReceive
  import opened Wrappers

  // ---- The container's manifest

  /** One record of the manifest script. */
  function ContainerEntry(p: Path, n: Node): Entry { EntryFor(p, n).(hash := ContainerHash(n)) }

  /** The listed paths that still name a file or link. */
  function Emitted(t: Tree, listed: seq<Path>): seq<Path> {
    if |listed| == 0 then []
    else
      var p := listed[|listed| - 1];
      Emitted(t, listed[..|listed| - 1]) + (if IsLeaf(t, p) then [p] else [])
  }

  lemma {:induction false} EmittedAreLeaves(t: Tree, listed: seq<Path>)
    ensures forall p :: p in Emitted(t, listed) <==> p in listed && IsLeaf(t, p)
  {
    if |listed| > 0 {
      EmittedAreLeaves(t, listed[..|listed| - 1]);
      assert listed == listed[..|listed| - 1] + [listed[|listed| - 1]];
    }
  }

  function ContainerFilesAt(t: Tree, ps: set<Path>): Files { map p | p in ps && p in t :: ContainerEntry(p, t[p]) }

  /** None when git failed, or listed an invalid path or one path twice. */
  function ContainerFiles(t: Tree, listed: Option<seq<Path>>): Option<Files> {
    if listed.None? then None else
    var kept := Emitted(t, listed.value);
    if NoRepeats(kept) && forall p :: p in kept ==> ValidPath(p) then Some(ContainerFilesAt(t, PathSet(kept))) else None
  }

  method ContainerManifest(dir: Folder, listed: Option<seq<Path>>) returns (r: Option<Manifest>)
    ensures (if r.Some? then Some(Index(r.value)) else None) == ContainerFiles(dir.tree, listed)
  {
    hide ValidPath;
    if listed.None? {
      return None;
    }
    var paths := listed.value;
    ghost var kept := Emitted(dir.tree, paths);
    EmittedAreLeaves(dir.tree, paths);
    var m: Manifest := [];
    ghost var names: seq<Path> := [];
    for i := 0 to |paths|
      invariant names == Emitted(dir.tree, paths[..i])
      invariant Records(dir.tree, names, m)
    {
      assert paths[..i + 1][..i] == paths[..i];
      if paths[i] !in dir.tree || dir.tree[paths[i]].Dir? {
        continue;
      }
      m := m + [ContainerEntry(paths[i], dir.tree[paths[i]])];
      names := names + [paths[i]];
    }
    assert paths[..|paths|] == paths;
    RecordPaths(dir.tree, kept, m);
    r := Normalize(m);
    if r.Some? {
      RecordsIndex(dir.tree, kept, m);
    }
  }

  /** `m` is the records of `kept`. */
  ghost predicate Records(t: Tree, kept: seq<Path>, m: Manifest) {
    |m| == |kept| && forall j :: 0 <= j < |m| ==> kept[j] in t && m[j] == ContainerEntry(kept[j], t[kept[j]])
  }

  lemma RecordPaths(t: Tree, kept: seq<Path>, m: Manifest)
    requires Records(t, kept, m)
    ensures forall j :: 0 <= j < |m| ==> m[j].path == kept[j]
    ensures DistinctPaths(m) <==> NoRepeats(kept)
    ensures (forall e :: e in m ==> ValidPath(e.path)) <==> (forall p :: p in kept ==> ValidPath(p))
  {
    hide ValidPath;
    assert forall j :: 0 <= j < |m| ==> m[j].path == kept[j] && m[j] in m && kept[j] in kept;
  }

  lemma RecordsIndex(t: Tree, kept: seq<Path>, m: Manifest)
    requires Records(t, kept, m)
    ensures Index(m) == ContainerFilesAt(t, PathSet(kept))
  {
    hide ValidPath, ContainerEntry;
    RecordPaths(t, kept, m);
    IndexKeys(m);
    forall p | p in ContainerFilesAt(t, PathSet(kept)) ensures p in Index(m) {
      var j :| 0 <= j < |kept| && kept[j] == p;
      assert m[j].path == p;
    }
  }

  // ---- Saving the target

  function BodyOf(n: Node): Body {
    match n
    case File(bytes, _) => Reg(bytes)
    case Link(target) => LinkTo(target)
    case Dir => Other
  }

  /** What tar sends for a list of paths: a directory sends itself before what is in it, which staging refuses at once;
      a missing path sends nothing. */
  function ContainerTar(t: Tree, es: Manifest): seq<TarMember> {
    if |es| == 0 then []
    else
      var e := es[|es| - 1];
      ContainerTar(t, es[..|es| - 1]) + (if e.path in t then [TarMember(e.path, BodyOf(t[e.path]))] else [])
  }

  /** existingEntries: the target's entries for ops on paths it has. */
  function Existing(target: Files, ops: seq<Op>): Manifest {
    if |ops| == 0 then []
    else
      var op := ops[|ops| - 1];
      Existing(target, ops[..|ops| - 1]) + (if op.action != Added && op.path in target then [target[op.path]] else [])
  }

  datatype Saving = Nothing | Impossible | Kept(archive: Archive)

  /** backupTarget. */
  function Save(t: Tree, server: Files, ops: seq<Op>): Saving {
    var affected := Existing(server, ops);
    if |affected| == 0 then Nothing else
    var pre := Staged(ContainerTar(t, affected), Index(affected), false);
    if pre.None? then Impossible else
    match Backup(pre.value, server, ops) case None => Impossible case Some(a) => Kept(a)
  }

  method BackupTarget(dir: Folder, server: Manifest, ops: seq<Op>) returns (r: Saving)
    ensures r == Save(dir.tree, Index(server), ops)
  {
    hide Staged, Backup;
    var byPath := BuildIndex(server);
    var affected: Manifest := [];
    for i := 0 to |ops|
      invariant affected == Existing(byPath, ops[..i])
    {
      assert ops[..i + 1][..i] == ops[..i];
      if ops[i].action == Added {
        continue;
      }
      if ops[i].path in byPath {
        affected := affected + [byPath[ops[i].path]];
      }
    }
    assert ops[..|ops|] == ops;
    if |affected| == 0 {
      return Nothing;
    }
    var pre := CopyTarMembers(ContainerTar(dir.tree, affected), affected, false);
    if pre.None? {
      return Impossible;
    }
    var saved := new Folder(pre.value);
    var a := WriteBackup(saved, server, ops);
    r := if a.None? then Impossible else Kept(a.value);
  }

  // ---- Writing to the container

  /** One member of an uploaded tar: with room at its path, what a copy of the entry does, and as many ways to fail. */
  function UploadOne(t: Tree, staged: Tree, e: Entry, f: Fault): (Tree, bool) {
    ApplyOne(t, staged, map[e.path := e], Op(e.path, Added), f)
  }

  /** UploadFiles: one member after another, up to the first that fails. */
  function UploadAll(t: Tree, staged: Tree, es: Manifest, faults: seq<Fault>): (Tree, bool) {
    if |es| == 0 then (t, true)
    else
      var (u, ok) := UploadAll(t, staged, es[..|es| - 1], faults);
      if !ok then (u, false) else UploadOne(u, staged, es[|es| - 1], FaultAt(faults, |es| - 1))
  }

  /** rm -f: no error for what is not there, but one for a directory. */
  function RmForce(t: Tree, p: Path): (Tree, bool) {
    if Blocked(t, p) || p !in t then (t, true) else if t[p].Dir? then (t, false) else (t - {p}, true)
  }

  /** RemovePaths. */
  function RmAll(t: Tree, ps: seq<Path>, faults: seq<Fault>): (Tree, bool) {
    if |ps| == 0 then (t, true)
    else
      var (u, ok) := RmAll(t, ps[..|ps| - 1], faults);
      if !ok || FaultAt(faults, |ps| - 1) != NoFault then (u, false) else RmForce(u, ps[|ps| - 1])
  }

  function PathsOf(ops: seq<Op>, action: Action): seq<Path> {
    if |ops| == 0 then []
    else
      var op := ops[|ops| - 1];
      PathsOf(ops[..|ops| - 1], action) + (if op.action == action then [op.path] else [])
  }

  /** What goes wrong: whether the archive is written, the uploads and removals of the apply, whether the archive is
      read back, and the uploads and removals of the rollback. */
  datatype Faults = Faults(saves: bool, up: seq<Fault>, rm: seq<Fault>, opens: bool, reUp: seq<Fault>, reRm: seq<Fault>)

  /** The rollback meets nothing new. */
  predicate QuietRollback(f: Faults) { f.opens && f.reUp == [] && f.reRm == [] }

  function SendApply(t: Tree, staged: Tree, client: Files, ops: seq<Op>, f: Faults): (Tree, bool) {
    var (u, ok) := UploadAll(t, staged, Transfer(client, ops), f.up);
    if !ok then (u, false) else RmAll(u, PathsOf(ops, Deleted), f.rm)
  }

  /** stagedEntries. */
  function StagedEntries(x: Tree, entries: seq<BackupEntry>): Manifest {
    if |entries| == 0 then []
    else
      var e := entries[|entries| - 1];
      StagedEntries(x, entries[..|entries| - 1])
      + (if e.action == Added then [] else [Entry(e.path, SizeAt(x, e), e.mode, e.kind, e.hash)])
  }

  function SizeAt(x: Tree, e: BackupEntry): nat {
    if e.kind == RegularFile && e.path in x && x[e.path].File? then |x[e.path].bytes| else 0
  }

  /** rollback: without an archive there is nothing to do, and no error. */
  function Rollback(t: Tree, a: Option<Archive>, ops: seq<Op>, f: Faults): (Tree, bool) {
    if a.None? then (t, true) else if !f.opens then (t, false) else
    match Extract(a.value)
    case None => (t, false)
    case Some(x) =>
      var (u, ok) := UploadAll(t, x, StagedEntries(x, a.value.entries), f.reUp);
      if !ok then (u, false) else RmAll(u, PathsOf(ops, Added), f.reRm)
  }

  method UploadFiles(dir: Folder, staged: Tree, files: Manifest, faults: seq<Fault>) returns (ok: bool)
    modifies dir
    ensures (dir.tree, ok) == UploadAll(old(dir.tree), staged, files, faults)
  {
    hide UploadOne;
    for i := 0 to |files|
      invariant (dir.tree, true) == UploadAll(old(dir.tree), staged, files[..i], faults)
    {
      assert files[..i + 1][..i] == files[..i];
      ok := UploadMember(dir, staged, files[i], FaultAt(faults, i));
      if !ok {
        UploadStops(old(dir.tree), staged, files, faults, i + 1);
        return;
      }
    }
    assert files[..|files|] == files;
    ok := true;
  }

  method UploadMember(dir: Folder, staged: Tree, e: Entry, f: Fault) returns (ok: bool)
    modifies dir
    ensures (dir.tree, ok) == UploadOne(old(dir.tree), staged, e, f)
  {
    hide CopyEntry, MkdirParents, Remove;
    if f.Refused? {
      return false;
    }
    if f.Cleared? {
      var _ := dir.MakeParents(e.path);
      var _ := dir.Delete(e.path);
      return false;
    }
    var st := dir.Copy(e.path, if f.HalfWritten? then Truncated(staged, e.path, f.n) else staged, e.kind, e.mode);
    ok := f.NoFault? && st == Done;
  }

  lemma {:induction false} UploadStops(t: Tree, staged: Tree, es: Manifest, faults: seq<Fault>, i: nat)
    requires i <= |es| && !UploadAll(t, staged, es[..i], faults).1
    ensures UploadAll(t, staged, es, faults) == UploadAll(t, staged, es[..i], faults)
  {
    if i < |es| {
      assert es[..|es| - 1][..i] == es[..i];
      UploadStops(t, staged, es[..|es| - 1], faults, i);
    } else {
      assert es[..i] == es;
    }
  }

  method RemovePaths(dir: Folder, paths: seq<Path>, faults: seq<Fault>) returns (ok: bool)
    modifies dir
    ensures (dir.tree, ok) == RmAll(old(dir.tree), paths, faults)
  {
    for i := 0 to |paths|
      invariant (dir.tree, true) == RmAll(old(dir.tree), paths[..i], faults)
    {
      assert paths[..i + 1][..i] == paths[..i];
      if FaultAt(faults, i) != NoFault || (!Blocked(dir.tree, paths[i]) && paths[i] in dir.tree
          && dir.tree[paths[i]].Dir?) {
        RmStops(old(dir.tree), paths, faults, i + 1);
        return false;
      }
      if !Blocked(dir.tree, paths[i]) && paths[i] in dir.tree {
        var _ := dir.Delete(paths[i]);
      }
    }
    assert paths[..|paths|] == paths;
    ok := true;
  }

  lemma {:induction false} RmStops(t: Tree, ps: seq<Path>, faults: seq<Fault>, i: nat)
    requires i <= |ps| && !RmAll(t, ps[..i], faults).1
    ensures RmAll(t, ps, faults) == RmAll(t, ps[..i], faults)
  {
    if i < |ps| {
      assert ps[..|ps| - 1][..i] == ps[..i];
      RmStops(t, ps[..|ps| - 1], faults, i);
    } else {
      assert ps[..i] == ps;
    }
  }

  method ChoosePaths(ops: seq<Op>, action: Action) returns (ps: seq<Path>)
    ensures ps == PathsOf(ops, action)
  {
    ps := [];
    for i := 0 to |ops|
      invariant ps == PathsOf(ops[..i], action)
    {
      assert ops[..i + 1][..i] == ops[..i];
      if ops[i].action == action {
        ps := ps + [ops[i].path];
      }
    }
    assert ops[..|ops|] == ops;
  }

  method RollBack(dir: Folder, a: Option<Archive>, ops: seq<Op>, f: Faults) returns (ok: bool)
    modifies dir
    ensures (dir.tree, ok) == Rollback(old(dir.tree), a, ops, f)
  {
    hide Extract, UploadAll, RmAll, PathsOf;
    if a.None? {
      return true;
    }
    if !f.opens {
      return false;
    }
    var x := ExtractBackup(a.value);
    if x.None? {
      return false;
    }
    var files: Manifest := [];
    var entries := a.value.entries;
    for i := 0 to |entries|
      invariant files == StagedEntries(x.value, entries[..i])
      invariant dir.tree == old(dir.tree)
    {
      assert entries[..i + 1][..i] == entries[..i];
      var e := entries[i];
      if e.action != Added {
        files := files + [Entry(e.path, SizeAt(x.value, e), e.mode, e.kind, e.hash)];
      }
    }
    assert entries[..|entries|] == entries;
    ok := UploadFiles(dir, x.value, files, f.reUp);
    if ok {
      var added := ChoosePaths(ops, Added);
      ok := RemovePaths(dir, added, f.reRm);
    }
  }

  // ---- The transaction

  datatype SendEnd =
    | Sent
    | NotAdmitted                 // the strict staging refused the payload
    | NotSaved                    // the target could not be backed up
    | TakenBack(restored: bool)   // apply or check failed; what the rollback said

  /** What Send leaves in the container, and how it ended. `git` lists the covered paths of a tree. */
  function Uploaded(t: Tree, client: Manifest, server: Manifest, ops: seq<Op>, payload: seq<TarMember>, f: Faults,
                    git: Tree -> Option<seq<Path>>): (Tree, SendEnd) {
    var staged := Staged(payload, Index(Transfer(Index(client), ops)), true);
    if staged.None? then (t, NotAdmitted) else
    var saving := Save(t, Index(server), ops);
    if saving.Impossible? || (saving.Kept? && !f.saves) then (t, NotSaved) else
    var (u, ok) := SendApply(t, staged.value, Index(client), ops, f);
    var got := ContainerFiles(u, git(u));
    if ok && got.Some? && Matches(Index(client), got.value) then (u, Sent) else
    var (v, back) := Rollback(u, if saving.Kept? then Some(saving.archive) else None, ops, f);
    (v, TakenBack(back))
  }

  method Send(dir: Folder, client: Manifest, server: Manifest, ops: seq<Op>, payload: seq<TarMember>, f: Faults,
              git: Tree -> Option<seq<Path>>) returns (end: SendEnd)
    modifies dir
    ensures (dir.tree, end) == Uploaded(old(dir.tree), client, server, ops, payload, f, git)
  {
    hide Staged, Save, UploadAll, RmAll, PathsOf, Rollback, ContainerFiles, Matches, Transfer, Index;
    var entries := TransferSet(client, ops);
    var staged := CopyTarMembers(payload, entries, true);
    if staged.None? {
      return NotAdmitted;
    }
    var saving := BackupTarget(dir, server, ops);
    if saving.Impossible? || (saving.Kept? && !f.saves) {
      return NotSaved;
    }
    var ok := UploadFiles(dir, staged.value, entries, f.up);
    if ok {
      var deleted := ChoosePaths(ops, Deleted);
      ok := RemovePaths(dir, deleted, f.rm);
    }
    if ok {
      var got := ContainerManifest(dir, git(dir.tree));
      if got.Some? {
        var same := Compare(client, got.value);
        if same {
          return Sent;
        }
      }
    }
    var back := RollBack(dir, if saving.Kept? then Some(saving.archive) else None, ops, f);
    end := TakenBack(back);
  }
}
