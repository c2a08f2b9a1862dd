/** Back up, apply and restore (server/internal/sync/backup.go): the archive a backup writes and reads back, the ops
    applied one after another with a fault possible at every one of them, and the entries restored in their
    order. The functions specify; the methods do the same to a folder in place. What the three achieve together
    is in SyncRestore. */
module SyncBackup {
  import opened SyncFolder
  import opened SyncManifest
  import opened Wrappers

  datatype BackupEntry = BackupEntry(path: Path, action: Action, mode: nat, kind: Kind, hash: Hash)

  datatype Member = Member(path: Path, node: Node)

  datatype Archive = Archive(entries: seq<BackupEntry>, members: seq<Member>)

  predicate IsAbs(target: string) { "/" <= target }

  function Paths(ops: seq<Op>): set<Path> { set i | 0 <= i < |ops| :: ops[i].path }

  function HashOf(n: Node): Hash {
    if n.File? then Sha256(n.bytes) else if n.Link? then Sha256(n.target) else Sha256("")
  }

  /** The manifest entry tells the truth about the node. */
  predicate Describes(e: Entry, n: Node) { KindOf(n, e.kind) && HashOf(n) == e.hash && (n.File? ==> n.mode == e.mode) }

  // ---- Backup

  function MetaFor(target: Files, op: Op): seq<BackupEntry> {
    if op.action == Added then [BackupEntry(op.path, Added, 0, RegularFile, Sha256(""))]
    else if op.path !in target then []
    else var e := target[op.path]; [BackupEntry(op.path, op.action, e.mode, e.kind, e.hash)]
  }

  function Meta(target: Files, ops: seq<Op>): seq<BackupEntry> {
    if |ops| == 0 then [] else Meta(target, ops[..|ops| - 1]) + MetaFor(target, ops[|ops| - 1])
  }

  /** WriteTarEntry: the member for `p`, if the folder holds the recorded kind there. */
  function Saved(t: Tree, e: BackupEntry): Option<Member> {
    if e.path !in t || !KindOf(t[e.path], e.kind) then None
    else Some(Member(e.path, Copied(t[e.path], e.mode)))
  }

  function Members(t: Tree, entries: seq<BackupEntry>): Option<seq<Member>> {
    if |entries| == 0 then Some([])
    else
      var e := entries[|entries| - 1];
      match Members(t, entries[..|entries| - 1])
      case None => None
      case Some(ms) =>
        if e.action == Added then Some(ms)
        else match Saved(t, e) case None => None case Some(m) => Some(ms + [m])
  }

  function Backup(t: Tree, target: Files, ops: seq<Op>): Option<Archive> {
    match Members(t, Meta(target, ops))
    case None => None
    case Some(ms) => Some(Archive(Meta(target, ops), ms))
  }

  lemma {:induction false} MembersMonotone(t: Tree, entries: seq<BackupEntry>, i: nat)
    requires i <= |entries| && Members(t, entries[..i]).None?
    ensures Members(t, entries).None?
  {
    if i < |entries| {
      assert entries[..|entries| - 1][..i] == entries[..i];
      MembersMonotone(t, entries[..|entries| - 1], i);
    } else {
      assert entries[..i] == entries;
    }
  }

  method WriteBackup(dir: Folder, target: Manifest, ops: seq<Op>) returns (r: Option<Archive>)
    ensures r == Backup(dir.tree, Index(target), ops)
  {
    var byPath := BuildIndex(target);
    var entries: seq<BackupEntry> := [];
    for i := 0 to |ops|
      invariant entries == Meta(byPath, ops[..i])
    {
      assert ops[..i + 1][..i] == ops[..i];
      if ops[i].action == Added {
        entries := entries + [BackupEntry(ops[i].path, Added, 0, RegularFile, Sha256(""))];
        continue;
      }
      if ops[i].path !in byPath {
        continue;
      }
      var e := byPath[ops[i].path];
      entries := entries + [BackupEntry(ops[i].path, ops[i].action, e.mode, e.kind, e.hash)];
    }
    assert ops[..|ops|] == ops;
    var members: seq<Member> := [];
    for i := 0 to |entries|
      invariant Members(dir.tree, entries[..i]) == Some(members)
    {
      assert entries[..i + 1][..i] == entries[..i];
      if entries[i].action == Added {
        continue;
      }
      var m := Saved(dir.tree, entries[i]);
      if m.None? {
        MembersMonotone(dir.tree, entries, i + 1);
        return None;
      }
      members := members + [m.value];
    }
    assert entries[..|entries|] == entries;
    r := Some(Archive(entries, members));
  }

  // ---- Extraction: unpack into an empty folder, refusing unsafe members, and check every hash

  function Unpack(t: Tree, m: Member): (Tree, bool) {
    if !ValidPath(m.path) || m.node.Dir? || (m.node.Link? && IsAbs(m.node.target)) then (t, false) else
    var (t1, made) := MkdirParents(t, m.path);
    if made != Done then (t1, false) else
    var (t2, st) := if m.node.File? then WriteFile(t1, m.path, m.node.bytes, m.node.mode)
        else MakeLink(t1, m.path, m.node.target);
    (t2, st == Done)
  }

  function UnpackAll(members: seq<Member>): (Tree, bool) {
    if |members| == 0 then (map[], true)
    else
      var (t, ok) := UnpackAll(members[..|members| - 1]);
      if !ok then (t, false) else Unpack(t, members[|members| - 1])
  }

  predicate Verified(staged: Tree, e: BackupEntry) {
    e.action == Added || (IsLeaf(staged, e.path) && HashOf(staged[e.path]) == e.hash)
  }

  function Extract(a: Archive): Option<Tree> {
    var (t, ok) := UnpackAll(a.members);
    if ok && forall e :: e in a.entries ==> Verified(t, e) then Some(t) else None
  }

  lemma {:induction false} UnpackStops(members: seq<Member>, i: nat)
    requires i <= |members| && !UnpackAll(members[..i]).1
    ensures !UnpackAll(members).1
  {
    if i < |members| {
      assert members[..|members| - 1][..i] == members[..i];
      UnpackStops(members[..|members| - 1], i);
    } else {
      assert members[..i] == members;
    }
  }

  method ExtractBackup(a: Archive) returns (r: Option<Tree>)
    ensures r == Extract(a)
  {
    hide ValidPath, Verified, IsAbs;
    var tmp := new Folder(map[]);
    for i := 0 to |a.members|
      invariant (tmp.tree, true) == UnpackAll(a.members[..i])
      invariant fresh(tmp)
    {
      var m := a.members[i];
      assert a.members[..i + 1][..i] == a.members[..i];
      if !ValidPath(m.path) || m.node.Dir? || (m.node.Link? && IsAbs(m.node.target)) {
        UnpackStops(a.members, i + 1);
        return None;
      }
      var st := tmp.MakeParents(m.path);
      if st == Done {
        st := tmp.Put(m.path, m.node);
      }
      if st != Done {
        UnpackStops(a.members, i + 1);
        return None;
      }
    }
    assert a.members[..|a.members|] == a.members;
    for i := 0 to |a.entries|
      invariant forall j :: 0 <= j < i ==> Verified(tmp.tree, a.entries[j])
    {
      if !Verified(tmp.tree, a.entries[i]) {
        return None;
      }
    }
    r := Some(tmp.tree);
  }

  // ---- Apply

  /** What may go wrong at one op: nothing; an error before anything happened; one after the old entry
      was removed; one after the first `n` bytes of the new file were written. */
  datatype Fault = NoFault | Refused | Cleared | HalfWritten(n: nat)

  function SourceOf(source: Files, p: Path): (Kind, nat) {
    if p in source then (source[p].kind, source[p].mode) else (RegularFile, 0)
  }

  /** The staged tree as a truncated copy sees it. */
  function Truncated(staged: Tree, p: Path, n: nat): Tree {
    if p in staged && staged[p].File? && n <= |staged[p].bytes|
    then staged[p := File(staged[p].bytes[..n], staged[p].mode)] else staged
  }

  function ApplyOne(t: Tree, staged: Tree, source: Files, op: Op, f: Fault): (Tree, bool) {
    var (kind, mode) := SourceOf(source, op.path);
    if f.Refused? then (t, false)
    else if op.action == Deleted then
      var (u, st) := Remove(t, op.path);
      if f.NoFault? then (u, st != Failed) else (t, false)
    else if f.Cleared? then (Remove(MkdirParents(t, op.path).0, op.path).0, false)
    else if f.HalfWritten? then (CopyEntry(t, op.path, Truncated(staged, op.path, f.n), kind, mode).0, false)
    else
      var (u, st) := CopyEntry(t, op.path, staged, kind, mode);
      (u, st == Done)
  }

  function FaultAt(faults: seq<Fault>, i: nat): Fault { if i < |faults| then faults[i] else NoFault }

  /** The first `i` ops, stopping at the first error. */
  function Apply(t: Tree, staged: Tree, source: Files, ops: seq<Op>, faults: seq<Fault>, i: nat): (Tree, bool)
    requires i <= |ops|
  {
    if i == 0 then (t, true)
    else
      var (u, ok) := Apply(t, staged, source, ops, faults, i - 1);
      if !ok then (u, false) else ApplyOne(u, staged, source, ops[i - 1], FaultAt(faults, i - 1))
  }

  lemma {:induction false} ApplyStops(t: Tree, staged: Tree, source: Files, ops: seq<Op>, faults: seq<Fault>, i: nat,
                                      j: nat)
    requires i <= j <= |ops| && !Apply(t, staged, source, ops, faults, i).1
    ensures Apply(t, staged, source, ops, faults, j) == Apply(t, staged, source, ops, faults, i)
  {
    if i < j {
      ApplyStops(t, staged, source, ops, faults, i, j - 1);
    }
  }

  /** `faults` scripts the errors; the folder is left as the failing op left it. */
  method ApplyLocal(dir: Folder, staged: Tree, source: Manifest, ops: seq<Op>, faults: seq<Fault>) returns (ok: bool)
    modifies dir
    ensures (dir.tree, ok) == Apply(old(dir.tree), staged, Index(source), ops, faults, |ops|)
  {
    var byPath := BuildIndex(source);
    for i := 0 to |ops|
      invariant (dir.tree, true) == Apply(old(dir.tree), staged, byPath, ops, faults, i)
    {
      var op, f := ops[i], FaultAt(faults, i);
      ghost var t := dir.tree;
      ok := true;
      if f.Refused? || (op.action == Deleted && !f.NoFault?) {
        ok := false;
      } else if op.action == Deleted {
        var st := dir.Delete(op.path);
        ok := st != Failed;
      } else if f.Cleared? {
        var _ := dir.MakeParents(op.path);
        var _ := dir.Delete(op.path);
        ok := false;
      } else {
        var (kind, mode) := SourceOf(byPath, op.path);
        var st := dir.Copy(op.path, if f.HalfWritten? then Truncated(staged, op.path, f.n) else staged, kind, mode);
        ok := f.NoFault? && st == Done;
      }
      assert (dir.tree, ok) == ApplyOne(t, staged, byPath, op, f);
      if !ok {
        ApplyStops(old(dir.tree), staged, byPath, ops, faults, i + 1, |ops|);
        return;
      }
    }
    ok := true;
  }

  // ---- Restore

  function RestoreOne(t: Tree, staged: Tree, e: BackupEntry): (Tree, bool) {
    if e.action == Added then
      var (u, st) := Remove(t, e.path);
      (u, st != Failed)
    else
      var (u, st) := CopyEntry(t, e.path, staged, e.kind, e.mode);
      (u, st == Done && IsLeaf(u, e.path) && KindOf(u[e.path], e.kind) && HashOf(u[e.path]) == e.hash)
  }

  function RestoreEntries(t: Tree, staged: Tree, entries: seq<BackupEntry>): (Tree, bool) {
    if |entries| == 0 then (t, true)
    else
      var (u, ok) := RestoreEntries(t, staged, entries[..|entries| - 1]);
      if !ok then (u, false) else RestoreOne(u, staged, entries[|entries| - 1])
  }

  function Restore(t: Tree, a: Archive): (Tree, bool) {
    match Extract(a)
    case None => (t, false)
    case Some(staged) => RestoreEntries(t, staged, a.entries)
  }

  // ---- Restore on a disk with faults

  /** An entry that meets a fault: refused, cleared away, or half copied. */
  function RestoreOneWith(t: Tree, staged: Tree, e: BackupEntry, f: Fault): (Tree, bool) {
    if f.NoFault? then RestoreOne(t, staged, e)
    else if f.Refused? || e.action == Added then (t, false)
    else if f.Cleared? then (Remove(MkdirParents(t, e.path).0, e.path).0, false)
    else (CopyEntry(t, e.path, Truncated(staged, e.path, f.n), e.kind, e.mode).0, false)
  }

  function RestoreEntriesWith(t: Tree, staged: Tree, entries: seq<BackupEntry>, faults: seq<Fault>): (Tree, bool) {
    if |entries| == 0 then (t, true)
    else
      var n := |entries| - 1;
      var (u, ok) := RestoreEntriesWith(t, staged, entries[..n], faults);
      if !ok then (u, false) else RestoreOneWith(u, staged, entries[n], FaultAt(faults, n))
  }

  /** `opens` says whether the archive can be read and unpacked. */
  function RestoreWith(t: Tree, a: Archive, opens: bool, faults: seq<Fault>): (Tree, bool) {
    if !opens then (t, false) else
    match Extract(a)
    case None => (t, false)
    case Some(staged) => RestoreEntriesWith(t, staged, a.entries, faults)
  }

  predicate Faultless(faults: seq<Fault>, n: nat) { forall i :: 0 <= i < n ==> FaultAt(faults, i) == NoFault }

  lemma {:induction false} EntriesFaultShow(t: Tree, staged: Tree, entries: seq<BackupEntry>, faults: seq<Fault>)
    ensures RestoreEntriesWith(t, staged, entries, faults).1 ==> Faultless(faults, |entries|)
    ensures Faultless(faults, |entries|) ==>
              RestoreEntriesWith(t, staged, entries, faults) == RestoreEntries(t, staged, entries)
  {
    hide RestoreOne;
    if |entries| > 0 {
      EntriesFaultShow(t, staged, entries[..|entries| - 1], faults);
    }
  }

  /** A restore reports success only if nothing went wrong, and then it is the clean one. */
  lemma RestoreFaultsShow(t: Tree, a: Archive, opens: bool, faults: seq<Fault>)
    ensures RestoreWith(t, a, opens, faults).1 ==> opens && Faultless(faults, |a.entries|)
    ensures opens && Faultless(faults, |a.entries|) ==> RestoreWith(t, a, opens, faults) == Restore(t, a)
  {
    hide Extract;
    if Extract(a).Some? {
      EntriesFaultShow(t, Extract(a).value, a.entries, faults);
    }
  }

  lemma {:induction false} RestoreWithStops(t: Tree, staged: Tree, entries: seq<BackupEntry>, faults: seq<Fault>,
                                            i: nat)
    requires i <= |entries| && !RestoreEntriesWith(t, staged, entries[..i], faults).1
    ensures RestoreEntriesWith(t, staged, entries, faults) == RestoreEntriesWith(t, staged, entries[..i], faults)
  {
    if i < |entries| {
      assert entries[..|entries| - 1][..i] == entries[..i];
      RestoreWithStops(t, staged, entries[..|entries| - 1], faults, i);
    } else {
      assert entries[..i] == entries;
    }
  }

  lemma {:induction false} RestoreStops(t: Tree, staged: Tree, entries: seq<BackupEntry>, i: nat)
    requires i <= |entries| && !RestoreEntries(t, staged, entries[..i]).1
    ensures RestoreEntries(t, staged, entries) == RestoreEntries(t, staged, entries[..i])
  {
    if i < |entries| {
      assert entries[..|entries| - 1][..i] == entries[..i];
      RestoreStops(t, staged, entries[..|entries| - 1], i);
    } else {
      assert entries[..i] == entries;
    }
  }

  method RestoreLocal(a: Archive, dir: Folder, opens: bool, faults: seq<Fault>) returns (ok: bool)
    modifies dir
    ensures (dir.tree, ok) == RestoreWith(old(dir.tree), a, opens, faults)
  {
    if !opens {
      return false;
    }
    var x := ExtractBackup(a);
    if x.None? {
      return false;
    }
    var staged := x.value;
    for i := 0 to |a.entries|
      invariant (dir.tree, true) == RestoreEntriesWith(old(dir.tree), staged, a.entries[..i], faults)
    {
      var e, f := a.entries[i], FaultAt(faults, i);
      assert a.entries[..i + 1][..i] == a.entries[..i];
      ok := RestoreEntry(dir, staged, e, f);
      if !ok {
        RestoreWithStops(old(dir.tree), staged, a.entries, faults, i + 1);
        return;
      }
    }
    assert a.entries[..|a.entries|] == a.entries;
    ok := true;
  }

  /** One round of its loop. */
  method RestoreEntry(dir: Folder, staged: Tree, e: BackupEntry, f: Fault) returns (ok: bool)
    modifies dir
    ensures (dir.tree, ok) == RestoreOneWith(old(dir.tree), staged, e, f)
  {
    if f.Refused? || (e.action == Added && !f.NoFault?) {
      return false;
    }
    if e.action == Added {
      var st := dir.Delete(e.path);
      return st != Failed;
    }
    if f.Cleared? {
      var _ := dir.MakeParents(e.path);
      var _ := dir.Delete(e.path);
      return false;
    }
    var st := dir.Copy(e.path, if f.HalfWritten? then Truncated(staged, e.path, f.n) else staged, e.kind, e.mode);
    ok := f.NoFault? && st == Done && IsLeaf(dir.tree, e.path) && KindOf(dir.tree[e.path], e.kind)
          && HashOf(dir.tree[e.path]) == e.hash;
  }
}
