/** Exactly when a sync can be applied and undone: its paths must not nest (server/internal/sync/backup.go). */
module SyncNesting {
  import opened Sorting
  import opened SyncBackup
  import opened SyncFolder
  import opened SyncManifest
  import opened SyncRestore
  import opened Wrappers

  // ---- What one call keeps on any tree

  /** Everything that `t` holds away from `p` is still there. */
  predicate Keeps(t: Tree, u: Tree, p: Path) { forall q :: q in t && q != p ==> q in u && u[q] == t[q] }

  lemma RemoveKeeps(t: Tree, p: Path)
    requires WellFormed(t)
    ensures var (u, st) := Remove(t, p);
            WellFormed(u) && Keeps(t, u, p) && (Blocked(t, p) || Populated(t, p) ==> st == Failed && u == t)
  {
    var u := Remove(t, p).0;
    forall q, a | q in u && a in Parents(q) ensures a in u && u[a].Dir? {
      assert a in t && t[a].Dir?;
      assert a == p ==> Populated(t, p);
    }
    if Populated(t, p) {
      var q :| q in t && p in Parents(q);
      assert p in t && t[p].Dir?;
    }
  }

  lemma MkdirKeeps(t: Tree, p: Path)
    requires WellFormed(t)
    ensures var (u, st) := MkdirParents(t, p);
            && WellFormed(u) && (st == Done <==> !Blocked(t, p)) && (st != Done ==> u == t)
            && (forall q :: q in t ==> q in u && u[q] == t[q])
            && (st == Done ==> forall a :: a in Parents(p) ==> a in u && u[a].Dir?)
  {
    if !Blocked(t, p) {
      MkdirIsFlat(t, p);
      forall q | q in t && q in Parents(p) ensures t[q] == Dir {
        assert !IsLeaf(t, q);
      }
    }
  }

  /** copyEntry, failing or not, keeps everything away from its path; it fails below a file and above anything. */
  lemma CopyKeeps(t: Tree, p: Path, staged: Tree, kind: Kind, mode: nat)
    requires WellFormed(t)
    ensures var (u, st) := CopyEntry(t, p, staged, kind, mode);
            && WellFormed(u) && Keeps(t, u, p)
            && (Blocked(t, p) || Populated(t, p) ==> st != Done)
            && (st == Done ==> IsLeaf(u, p))
  {
    hide WellFormed, Blocked, Remove, MkdirParents, Populated;
    MkdirKeeps(t, p);
    if !Blocked(t, p) {
      ClearKeeps(t, p);
      if p in staged && KindOf(staged[p], kind) {
        PutKeeps(Remove(MkdirParents(t, p).0, p).0, p, Copied(staged[p], mode));
      }
    }
  }

  lemma ClearKeeps(t: Tree, p: Path)
    requires WellFormed(t) && !Blocked(t, p)
    ensures var u := Remove(MkdirParents(t, p).0, p).0;
            && WellFormed(u) && Keeps(t, u, p) && (forall a :: a in Parents(p) ==> a in u && u[a].Dir?)
            && (Populated(t, p) ==> p in u && u[p].Dir?)
  {
    hide Remove;
    MkdirKeeps(t, p);
    var t1 := MkdirParents(t, p).0;
    RemoveKeeps(t1, p);
    forall a | a in Parents(p) ensures a != p { ParentsOfParent(p, a); }
    if Populated(t, p) {
      var q :| q in t && p in Parents(q);
      assert q in t1 && Populated(t1, p);
      assert p in t && t[p].Dir?;
    }
  }

  lemma PutKeeps(t: Tree, p: Path, n: Node)
    requires WellFormed(t) && !n.Dir? && forall a :: a in Parents(p) ==> a in t && t[a].Dir?
    ensures p !in t || !t[p].Dir? ==> WellFormed(t[p := n])
    ensures p in t && t[p].File? && n.File? ==> WellFormed(t[p := File(n.bytes, t[p].mode)])
  {
    forall q, a | q in t && a in Parents(q) ensures a in t && t[a].Dir? {}
  }

  // ---- Runs of them

  lemma ApplyOneKeeps(t: Tree, staged: Tree, source: Files, op: Op)
    requires WellFormed(t)
    ensures var (u, ok) := ApplyOne(t, staged, source, op, NoFault);
            && WellFormed(u) && Keeps(t, u, op.path)
            && (Blocked(t, op.path) || Populated(t, op.path) ==> !ok)
            && (ok && op.action != Deleted ==> IsLeaf(u, op.path))
  {
    hide Remove, CopyEntry, Blocked, Populated, WellFormed, Keeps;
    var (kind, mode) := SourceOf(source, op.path);
    RemoveKeeps(t, op.path);
    CopyKeeps(t, op.path, staged, kind, mode);
  }

  /** A node that no op from `i` to `k` names is still there after op `k`. */
  lemma {:induction false} ApplyKeeps(t: Tree, staged: Tree, source: Files, ops: seq<Op>, i: nat, k: nat, q: Path)
    requires i <= k <= |ops| && WellFormed(t) && forall j :: i <= j < k ==> ops[j].path != q
    ensures var (a, b) := (Apply(t, staged, source, ops, [], i).0, Apply(t, staged, source, ops, [], k).0);
            WellFormed(a) && WellFormed(b) && (q in a ==> q in b && b[q] == a[q])
  {
    hide ApplyOne, WellFormed;
    if i < k {
      ApplyKeeps(t, staged, source, ops, i, k - 1, q);
      ApplyOneKeeps(Apply(t, staged, source, ops, [], k - 1).0, staged, source, ops[k - 1]);
    } else if k > 0 {
      ApplyKeeps(t, staged, source, ops, k - 1, k - 1, q);
      ApplyOneKeeps(Apply(t, staged, source, ops, [], k - 1).0, staged, source, ops[k - 1]);
    }
  }

  lemma RestoreOneKeeps(t: Tree, staged: Tree, e: BackupEntry)
    requires WellFormed(t)
    ensures var (u, ok) := RestoreOne(t, staged, e);
            && WellFormed(u) && Keeps(t, u, e.path) && (Blocked(t, e.path) || Populated(t, e.path) ==> !ok)
  {
    hide Remove, CopyEntry, Blocked, Populated, WellFormed, Keeps;
    RemoveKeeps(t, e.path);
    CopyKeeps(t, e.path, staged, e.kind, e.mode);
  }

  /** A node below the path of entry `i` that no earlier entry names makes the restore fail. */
  lemma {:induction false} RestoreStuck(t: Tree, staged: Tree, entries: seq<BackupEntry>, i: nat, q: Path)
    requires WellFormed(t) && i < |entries| && entries[i].path in Parents(q) && q in t
    requires forall j :: 0 <= j < i ==> entries[j].path != q
    ensures !RestoreEntries(t, staged, entries).1
  {
    hide WellFormed, RestoreOne;
    RestoreKeeps(t, staged, entries[..i], q);
    var u := RestoreEntries(t, staged, entries[..i]).0;
    RestoreOneKeeps(u, staged, entries[i]);
    assert entries[..i + 1][..i] == entries[..i];
    if RestoreEntries(t, staged, entries[..i]).1 {
      assert Populated(u, entries[i].path);
    }
    assert !RestoreEntries(t, staged, entries[..i + 1]).1;
    RestoreStops(t, staged, entries, i + 1);
  }

  lemma {:induction false} RestoreKeeps(t: Tree, staged: Tree, entries: seq<BackupEntry>, q: Path)
    requires WellFormed(t) && q in t && forall j :: 0 <= j < |entries| ==> entries[j].path != q
    ensures var u := RestoreEntries(t, staged, entries).0; WellFormed(u) && q in u && u[q] == t[q]
  {
    hide WellFormed, RestoreOne;
    if |entries| > 0 {
      RestoreKeeps(t, staged, entries[..|entries| - 1], q);
      RestoreOneKeeps(RestoreEntries(t, staged, entries[..|entries| - 1]).0, staged, entries[|entries| - 1]);
    }
  }

  // ---- Nested paths

  lemma {:induction false} PrefixTextLe(a: string, b: string)
    ensures TextLe(a, a + b)
  {
    if |a| > 0 {
      assert (a + b)[1..] == a[1..] + b;
      PrefixTextLe(a[1..], b);
    }
  }

  /** In the order of the ops, a path comes before everything below it. */
  lemma ParentFirst(ops: seq<Op>, i: nat, j: nat)
    requires StrictlySorted(ops) && i < |ops| && j < |ops| && ops[i].path in Parents(ops[j].path)
    ensures i < j
  {
    var p, q := ops[i].path, ops[j].path;
    var k :| 0 <= k < |q| && q[k] == '/' && p == q[..k];
    assert p + q[k..] == q && |p| < |q|;
    PrefixTextLe(p, q[k..]);
    TextLeTotal(p, q);
  }

  /** An op whose path lies below a file fails, whatever is staged: the file stays until its turn comes. */
  lemma BelowLeafFails(t: Tree, staged: Tree, source: Files, ops: seq<Op>, i: nat, j: nat, p: Path)
    requires WellFormed(t) && i <= j < |ops| && IsLeaf(Apply(t, staged, source, ops, [], i).0, p)
    requires p in Parents(ops[j].path) && forall k :: i <= k < j ==> ops[k].path != p
    ensures !Apply(t, staged, source, ops, [], j + 1).1
  {
    hide ApplyOne, WellFormed;
    ApplyKeeps(t, staged, source, ops, i, j, p);
    var u := Apply(t, staged, source, ops, [], j).0;
    assert Blocked(u, ops[j].path);
    ApplyOneKeeps(u, staged, source, ops[j]);
  }

  /** An op whose path has something below it that no earlier op names fails: only an empty directory gives way. */
  lemma AboveNodeFails(t: Tree, staged: Tree, source: Files, ops: seq<Op>, i: nat, q: Path)
    requires WellFormed(t) && i < |ops| && q in t && ops[i].path in Parents(q)
    requires forall k :: 0 <= k < i ==> ops[k].path != q
    ensures !Apply(t, staged, source, ops, [], i + 1).1
  {
    hide ApplyOne, WellFormed;
    ApplyKeeps(t, staged, source, ops, 0, i, q);
    var u := Apply(t, staged, source, ops, [], i).0;
    assert Populated(u, ops[i].path);
    ApplyOneKeeps(u, staged, source, ops[i]);
  }

  lemma AppliedLeaf(t: Tree, staged: Tree, source: Files, ops: seq<Op>, i: nat)
    requires WellFormed(t) && i < |ops| && ops[i].action != Deleted && Apply(t, staged, source, ops, [], i + 1).1
    ensures IsLeaf(Apply(t, staged, source, ops, [], i + 1).0, ops[i].path)
  {
    hide ApplyOne, WellFormed;
    ApplyKeeps(t, staged, source, ops, i, i, "");
    ApplyOneKeeps(Apply(t, staged, source, ops, [], i).0, staged, source, ops[i]);
  }

  /** If a path that is kept or created lies above another path of the plan, the plan cannot be applied. */
  lemma NestedNotApplied(t: Tree, staged: Tree, source: Files, ops: seq<Op>, i: nat, j: nat)
    requires WellFormed(t) && StrictlySorted(ops) && i < |ops| && j < |ops|
    requires ops[i].path in Parents(ops[j].path) && ops[i].action != Deleted
    ensures !Apply(t, staged, source, ops, [], |ops|).1
  {
    hide ApplyOne, Apply, WellFormed;
    ParentFirst(ops, i, j);
    if Apply(t, staged, source, ops, [], |ops|).1 {
      OkBefore(t, staged, source, ops, i + 1, |ops|);
      OkBefore(t, staged, source, ops, j + 1, |ops|);
      AppliedLeaf(t, staged, source, ops, i);
      BelowLeafFails(t, staged, source, ops, i + 1, j, ops[i].path);
      assert false;
    }
  }

  lemma OkBefore(t: Tree, staged: Tree, source: Files, ops: seq<Op>, i: nat, k: nat)
    requires i <= k <= |ops| && Apply(t, staged, source, ops, [], k).1
    ensures Apply(t, staged, source, ops, [], i).1
  {
    if !Apply(t, staged, source, ops, [], i).1 {
      ApplyStops(t, staged, source, ops, [], i, k);
    }
  }

  /** A directory replaced by a file: with anything below an added path, the sync cannot be applied, and the restore
      that follows reports a failure too, whatever the archive holds. */
  lemma DirectoryToFileFails(t: Tree, staged: Tree, source: Files, target: Files, ops: seq<Op>, i: nat, q: Path,
                             members: seq<Member>)
    requires WellFormed(t) && Accurate(t, target) && IsDiff(ops, source, target)
    requires i < |ops| && ops[i].action == Added && ops[i].path in Parents(q) && q in t
    ensures !Apply(t, staged, source, ops, [], |ops|).1
    ensures !Restore(Apply(t, staged, source, ops, [], |ops|).0, Archive(Meta(target, ops), members)).1
  {
    hide WellFormed, Accurate, Restore, RestoreEntries, Meta;
    forall k | 0 <= k < i ensures ops[k].path != q {
      if ops[k].path == q {
        ParentFirst(ops, i, k);
      }
    }
    AboveNodeFails(t, staged, source, ops, i, q);
    ApplyStops(t, staged, source, ops, [], i + 1, |ops|);
    ApplyKeeps(t, staged, source, ops, 0, i + 1, q) by { ParentsOfParent(q, ops[i].path); }
    StuckOnRestore(t, Apply(t, staged, source, ops, [], |ops|).0, source, target, ops, i, q, members);
  }

  /** Restoring fails on a tree that holds something below the path of op `i` that no earlier op names. */
  lemma StuckOnRestore(t: Tree, u: Tree, source: Files, target: Files, ops: seq<Op>, i: nat, q: Path,
                       members: seq<Member>)
    requires Accurate(t, target) && IsDiff(ops, source, target) && WellFormed(u)
    requires i < |ops| && ops[i].path in Parents(q) && q in u && forall k :: 0 <= k < i ==> ops[k].path != q
    ensures !Restore(u, Archive(Meta(target, ops), members)).1
  {
    hide WellFormed, RestoreEntries, Extract, Meta;
    DiffListed(t, source, target, ops);
    MetaShape(t, target, ops);
    var entries := Meta(target, ops);
    forall k | 0 <= k < |ops| ensures entries[k].path == ops[k].path {
      assert MetaFor(target, ops[k]) == [entries[k]];
      EntryPath(t, target, ops, k);
    }
    var x := Extract(Archive(entries, members));
    if x.Some? {
      RestoreStuck(u, x.value, entries, i, q);
    }
  }

  lemma EntryPath(t: Tree, target: Files, ops: seq<Op>, k: nat)
    requires Listed(t, target, ops) && k < |ops|
    ensures |MetaFor(target, ops[k])| == 1 && MetaFor(target, ops[k])[0].path == ops[k].path
  {
  }

  lemma DiffListed(t: Tree, source: Files, target: Files, ops: seq<Op>)
    requires Accurate(t, target) && IsDiff(ops, source, target)
    ensures Listed(t, target, ops) && DistinctOps(ops) && forall op :: op in ops && op.action != Added ==>
              op.path in target
  {
    forall op | op in ops && op.action != Added ensures op.path in target {
      assert Change(source, target, op.path) == Some(op.action);
    }
    AccurateIsListed(t, target, ops);
  }

  lemma AddedBelow(t: Tree, source: Files, target: Files, a: Op, b: Op)
    requires WellFormed(t) && Accurate(t, target) && a.action == Deleted && a.path in Parents(b.path)
    requires Change(source, target, a.path) == Some(a.action) && Change(source, target, b.path) == Some(b.action)
    ensures b.action == Added
  {
    hide ValidPath;
    assert IsLeaf(t, a.path);
    assert b.path in target ==> IsLeaf(t, b.path);
  }

  /** A file replaced by a directory: once applied it cannot be undone, whatever the archive holds, since the old name
      is now a directory with something in it, which os.Remove refuses. */
  lemma FileToDirectoryNotUndone(t: Tree, staged: Tree, source: Files, target: Files, ops: seq<Op>, i: nat, j: nat,
                                 members: seq<Member>)
    requires WellFormed(t) && Accurate(t, target) && IsDiff(ops, source, target)
    requires i < |ops| && j < |ops| && ops[i].action == Deleted && ops[i].path in Parents(ops[j].path)
    requires Apply(t, staged, source, ops, [], |ops|).1
    ensures !Restore(Apply(t, staged, source, ops, [], |ops|).0, Archive(Meta(target, ops), members)).1
  {
    hide Restore, RestoreEntries, Meta, ApplyOne, Change, WellFormed, Accurate, Apply;
    var p, q := ops[i].path, ops[j].path;
    ParentFirst(ops, i, j);
    AddedBelow(t, source, target, ops[i], ops[j]) by { assert ops[i] in ops && ops[j] in ops; }
    OkBefore(t, staged, source, ops, j + 1, |ops|);
    AppliedLeaf(t, staged, source, ops, j);
    ApplyKeeps(t, staged, source, ops, j + 1, |ops|, q);
    StuckOnRestore(t, Apply(t, staged, source, ops, [], |ops|).0, source, target, ops, i, q, members);
  }

  // ---- Both directions

  /** If the paths are not prefix-free, either the apply fails or the restore after it does. */
  lemma NestedFails(t: Tree, staged: Tree, source: Files, target: Files, ops: seq<Op>, members: seq<Member>)
    requires WellFormed(t) && Accurate(t, target) && IsDiff(ops, source, target) && !PrefixFree(t, ops)
    requires Apply(t, staged, source, ops, [], |ops|).1
    ensures !Restore(Apply(t, staged, source, ops, [], |ops|).0, Archive(Meta(target, ops), members)).1
  {
    hide Apply, Restore, Meta, WellFormed;
    if !Separate(Paths(ops)) {
      var p, q :| p in Paths(ops) && q in Paths(ops) && p in Parents(q);
      var i :| 0 <= i < |ops| && ops[i].path == p;
      var j :| 0 <= j < |ops| && ops[j].path == q;
      if ops[i].action == Deleted {
        FileToDirectoryNotUndone(t, staged, source, target, ops, i, j, members);
      } else {
        NestedNotApplied(t, staged, source, ops, i, j);
      }
    } else {
      var p :| p in Paths(ops) && !Room(t, p);
      var i :| 0 <= i < |ops| && ops[i].path == p;
      RoomlessNotApplied(t, staged, source, target, ops, i);
    }
  }

  lemma RoomlessNotApplied(t: Tree, staged: Tree, source: Files, target: Files, ops: seq<Op>, i: nat)
    requires WellFormed(t) && Accurate(t, target) && IsDiff(ops, source, target)
    requires Separate(Paths(ops)) && i < |ops| && !Room(t, ops[i].path)
    ensures !Apply(t, staged, source, ops, [], |ops|).1
  {
    hide WellFormed, Accurate, IsDiff, ApplyOne;
    var p := ops[i].path;
    assert Apply(t, staged, source, ops, [], 0).0 == t;
    if Blocked(t, p) {
      var a :| a in Parents(p) && IsLeaf(t, a);
      assert forall k :: 0 <= k < |ops| ==> ops[k].path in Paths(ops);
      BelowLeafFails(t, staged, source, ops, 0, i, a);
    } else {
      var q :| q in t && p in Parents(q);
      assert forall k :: 0 <= k < |ops| ==> ops[k].path in Paths(ops);
      AboveNodeFails(t, staged, source, ops, i, q);
    }
    ApplyStops(t, staged, source, ops, [], i + 1, |ops|);
  }

  /** A diff can be applied and then undone, both without an error, if and only if its paths are prefix-free and no
      saved link is absolute; and then the original files are back if and only if nothing unlisted lay at an added
      path. */
  lemma UndoableIff(t: Tree, staged: Tree, source: Files, target: Files, ops: seq<Op>)
    requires WellFormed(t) && Accurate(t, target) && IsDiff(ops, source, target) && StagedFor(staged, source, ops)
    ensures Backup(t, target, ops).Some?
    ensures var (u, applied) := Apply(t, staged, source, ops, [], |ops|);
            var (v, restored) := Restore(u, Backup(t, target, ops).value);
            && (applied && restored <==> PrefixFree(t, ops) && !SavesAbsoluteLink(t, ops))
            && (applied && restored ==> (Leaves(v) == Leaves(t) <==> AddsFresh(t, ops)))
  {
    hide Apply, Restore, Leaves, WellFormed, Accurate, StagedFor, SavesAbsoluteLink, AddsFresh, PrefixFree, Meta,
      Planned;
    DiffListed(t, source, target, ops);
    BackupSavesOldNodes(t, target, ops);
    if PrefixFree(t, ops) {
      DiffIsPlanned(t, source, target, ops);
      ApplyDiffGivesStaged(t, staged, source, target, ops);
      ApplyConfinedHere(t, staged, source, target, ops);
      var u := Apply(t, staged, source, ops, [], |ops|).0;
      RestoreUndoes(t, u, target, ops);
      FreshIffKept(t, ops);
    } else if Apply(t, staged, source, ops, [], |ops|).1 {
      NestedFails(t, staged, source, target, ops, Backup(t, target, ops).value.members);
    }
  }

  lemma ApplyConfinedHere(t: Tree, staged: Tree, source: Files, target: Files, ops: seq<Op>)
    requires Planned(t, target, ops)
    ensures Confined(t, Apply(t, staged, source, ops, [], |ops|).0, Paths(ops))
  {
    ApplyConfined(t, staged, source, ops, [], |ops|);
  }
}
