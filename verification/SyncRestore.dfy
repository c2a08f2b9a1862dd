/** What back up, apply and restore achieve together (server/internal/sync/backup.go). */
module SyncRestore {
  import opened SyncBackup
  import opened SyncFolder
  import opened SyncManifest
  import opened Wrappers

  // ---- Under which conditions

  predicate DistinctOps(ops: seq<Op>) { forall i, j :: 0 <= i < j < |ops| ==> ops[i].path != ops[j].path }

  /** The manifest was taken of this tree. */
  predicate Accurate(t: Tree, target: Files) {
    forall p :: p in target ==> IsLeaf(t, p) && Describes(target[p], t[p]) && ValidPath(p)
  }

  /** Prefix-freeness: no path the sync touches is a directory on the way to another one or to a file of
      the folder, and no file of the folder stands on the way to it. */
  predicate PrefixFree(t: Tree, ops: seq<Op>) { Separate(Paths(ops)) && Roomy(t, Paths(ops)) }

  predicate Planned(t: Tree, target: Files, ops: seq<Op>) {
    && WellFormed(t) && Accurate(t, target) && DistinctOps(ops) && PrefixFree(t, ops)
    && forall op :: op in ops && op.action != Added ==> op.path in target
  }

  /** The ops of a diff meet the two clauses above that are about ops alone. */
  lemma DiffIsPlanned(t: Tree, source: Files, target: Files, ops: seq<Op>)
    requires WellFormed(t) && Accurate(t, target) && IsDiff(ops, source, target) && PrefixFree(t, ops)
    ensures Planned(t, target, ops)
  {
    forall op | op in ops && op.action != Added ensures op.path in target {
      assert Change(source, target, op.path) == Some(op.action);
    }
  }

  function AddedPaths(ops: seq<Op>): set<Path> { set i | 0 <= i < |ops| && ops[i].action == Added :: ops[i].path }

  /** A saved link that the archive reader will refuse. */
  predicate SavesAbsoluteLink(t: Tree, ops: seq<Op>) {
    exists i :: 0 <= i < |ops| && ops[i].action != Added && ops[i].path in t && t[ops[i].path].Link?
        && IsAbs(t[ops[i].path].target)
  }

  predicate KindAndMode(e: Entry, n: Node) { KindOf(n, e.kind) && (n.File? ==> n.mode == e.mode) }

  /** Every path that is not new is listed, with its kind and mode. */
  predicate Listed(t: Tree, target: Files, ops: seq<Op>) {
    forall i :: 0 <= i < |ops| && ops[i].action != Added ==>
      ops[i].path in target && IsLeaf(t, ops[i].path) && KindAndMode(target[ops[i].path], t[ops[i].path])
          && ValidPath(ops[i].path)
  }

  /** And with the hash that restoring computes. */
  predicate Hashed(t: Tree, target: Files, ops: seq<Op>) {
    forall i :: 0 <= i < |ops| && ops[i].action != Added ==>
      ops[i].path in target && ops[i].path in t && HashOf(t[ops[i].path]) == target[ops[i].path].hash
  }

  lemma AccurateIsListed(t: Tree, target: Files, ops: seq<Op>)
    requires Accurate(t, target) && forall op :: op in ops && op.action != Added ==> op.path in target
    ensures Listed(t, target, ops) && Hashed(t, target, ops)
  {
    forall i | 0 <= i < |ops| ensures ops[i] in ops {}
  }

  lemma PlannedIsListed(t: Tree, target: Files, ops: seq<Op>)
    requires Planned(t, target, ops)
    ensures Listed(t, target, ops) && Hashed(t, target, ops)
  {
    AccurateIsListed(t, target, ops);
  }

  lemma Shorter(t: Tree, target: Files, ops: seq<Op>)
    requires |ops| > 0 && Listed(t, target, ops) && DistinctOps(ops)
    ensures Listed(t, target, ops[..|ops| - 1]) && DistinctOps(ops[..|ops| - 1]) && Listed(t, target, [ops[|ops| - 1]])
    ensures Paths(ops) == Paths(ops[..|ops| - 1]) + {ops[|ops| - 1].path}
    ensures ops[|ops| - 1].path !in Paths(ops[..|ops| - 1])
  {
    var rest := ops[..|ops| - 1];
    assert forall i :: 0 <= i < |rest| ==> rest[i] == ops[i];
    assert Paths(ops) == Paths(rest) + {ops[|ops| - 1].path};
  }

  // ---- The archive

  /** What a restore must bring back: the old node of every path that existed. */
  function SavedMembers(t: Tree, ops: seq<Op>): seq<Member> {
    if |ops| == 0 then []
    else
      var op := ops[|ops| - 1];
      SavedMembers(t, ops[..|ops| - 1]) + (if op.action != Added && op.path in t then [Member(op.path, t[op.path])]
          else [])
  }

  function OldNodes(t: Tree, ops: seq<Op>): Tree {
    if |ops| == 0 then map[]
    else
      var op, rest := ops[|ops| - 1], OldNodes(t, ops[..|ops| - 1]);
      if op.action != Added && op.path in t then rest[op.path := t[op.path]] else rest
  }

  lemma {:induction false} MetaShape(t: Tree, target: Files, ops: seq<Op>)
    requires Listed(t, target, ops)
    ensures |Meta(target, ops)| == |ops|
    ensures forall i :: 0 <= i < |ops| ==> MetaFor(target, ops[i]) == [Meta(target, ops)[i]]
  {
    if |ops| > 0 {
      MetaShape(t, target, ops[..|ops| - 1]);
    }
  }

  lemma EmptyMeta(target: Files)
    ensures Meta(target, []) == []
  {
  }

  lemma MetaPrefix(t: Tree, target: Files, ops: seq<Op>)
    requires Listed(t, target, ops) && |ops| > 0
    ensures |Meta(target, ops)| == |ops| && Meta(target, ops)[..|ops| - 1] == Meta(target, ops[..|ops| - 1])
    ensures MetaFor(target, ops[|ops| - 1]) == [Meta(target, ops)[|ops| - 1]]
  {
    MetaShape(t, target, ops);
    MetaShape(t, target, ops[..|ops| - 1]);
  }

  lemma {:induction false} BackupSavesOldNodes(t: Tree, target: Files, ops: seq<Op>)
    requires Listed(t, target, ops)
    ensures Members(t, Meta(target, ops)) == Some(SavedMembers(t, ops))
  {
    hide Meta, ValidPath;
    if |ops| > 0 {
      var n := |ops| - 1;
      BackupSavesOldNodes(t, target, ops[..n]);
      MetaPrefix(t, target, ops);
      if ops[n].action == Added {
        assert SavedMembers(t, ops) == SavedMembers(t, ops[..n]);
      } else {
        assert Saved(t, Meta(target, ops)[n]) == Some(Member(ops[n].path, t[ops[n].path]));
      }
    } else {
      EmptyMeta(target);
    }
  }

  /** No directory sits at a path of `ps`. */
  predicate NoDirAt(t: Tree, ps: set<Path>) { forall p :: p in ps && p in t ==> !t[p].Dir? }

  lemma UnpackOne(t: Tree, ps: set<Path>, p: Path, n: Node)
    requires Separate(ps) && p in ps && Confined(map[], t, ps) && NoDirAt(t, ps) && p !in Leaves(t)
    requires ValidPath(p) && !n.Dir?
    ensures var (u, ok) := Unpack(t, Member(p, n));
            && (ok <==> !(n.Link? && IsAbs(n.target)))
            && (ok ==> Confined(map[], u, ps) && NoDirAt(u, ps) && Leaves(u) == Leaves(t)[p := n])
  {
    MkdirConfined(map[], t, ps, p);
    MkdirIsFlat(t, p);
    var t1 := MkdirParents(t, p).0;
    PutConfined(map[], t1, ps, p, n);
    PutIsFlat(t1, p, n);
  }

  lemma {:induction false} OldNodesKeys(t: Tree, target: Files, ops: seq<Op>)
    requires Listed(t, target, ops) && DistinctOps(ops)
    ensures OldNodes(t, ops).Keys <= Paths(ops)
    ensures forall i :: 0 <= i < |ops| && ops[i].action != Added ==>
              ops[i].path in t && ops[i].path in OldNodes(t, ops) && OldNodes(t, ops)[ops[i].path] == t[ops[i].path]
  {
    if |ops| > 0 {
      Shorter(t, target, ops);
      OldNodesKeys(t, target, ops[..|ops| - 1]);
    }
  }

  lemma EmptyConfined(ps: set<Path>)
    ensures Confined(map[], map[], ps) && NoDirAt(map[], ps) && Leaves(map[]) == map[]
  {
  }

  lemma SavesAbsoluteLinkStep(t: Tree, ops: seq<Op>)
    ensures |ops| == 0 ==> !SavesAbsoluteLink(t, ops)
    ensures |ops| > 0 ==>
              var op := ops[|ops| - 1];
              SavesAbsoluteLink(t, ops) <==>
                SavesAbsoluteLink(t, ops[..|ops| - 1])
                || (op.action != Added && op.path in t && t[op.path].Link? && IsAbs(t[op.path].target))
  {
    if |ops| > 0 && SavesAbsoluteLink(t, ops) {
      var i :| 0 <= i < |ops| && ops[i].action != Added && ops[i].path in t && t[ops[i].path].Link?
          && IsAbs(t[ops[i].path].target);
      assert i < |ops| - 1 ==> ops[..|ops| - 1][i] == ops[i];
    }
  }

  /** Unpacking what a backup saved works unless an absolute link was saved, and gives back the old nodes. */
  lemma {:induction false} UnpackSaved(t: Tree, target: Files, ops: seq<Op>, ps: set<Path>)
    requires Listed(t, target, ops) && DistinctOps(ops) && Separate(ps) && Paths(ops) <= ps
    ensures var (u, ok) := UnpackAll(SavedMembers(t, ops));
            && (ok <==> !SavesAbsoluteLink(t, ops))
            && (ok ==> Confined(map[], u, ps) && NoDirAt(u, ps) && Leaves(u) == OldNodes(t, ops))
  {
    hide Confined, Separate, NoDirAt, Leaves, DistinctOps, Unpack, ValidPath, IsAbs, SavesAbsoluteLink;
    SavesAbsoluteLinkStep(t, ops);
    if |ops| == 0 {
      EmptyConfined(ps);
    } else {
      var n := |ops| - 1;
      var rest, op := ops[..n], ops[n];
      Shorter(t, target, ops);
      UnpackSaved(t, target, rest, ps);
      OldNodesKeys(t, target, rest);
      if op.action != Added {
        var ms := SavedMembers(t, ops);
        assert ms[..|ms| - 1] == SavedMembers(t, rest) && ms[|ms| - 1] == Member(op.path, t[op.path]);
        var (u, ok) := UnpackAll(SavedMembers(t, rest));
        if ok {
          UnpackOne(u, ps, op.path, t[op.path]);
        }
      } else {
        assert SavedMembers(t, ops) == SavedMembers(t, rest);
      }
    }
  }

  lemma VerifiedIff(t: Tree, target: Files, ops: seq<Op>, u: Tree)
    requires Listed(t, target, ops) && DistinctOps(ops) && Leaves(u) == OldNodes(t, ops)
    ensures (forall e :: e in Meta(target, ops) ==> Verified(u, e)) <==> Hashed(t, target, ops)
  {
    hide OldNodes, Meta, ValidPath, KindAndMode;
    OldNodesKeys(t, target, ops);
    MetaShape(t, target, ops);
    var entries := Meta(target, ops);
    forall i | 0 <= i < |ops|
      ensures Verified(u, entries[i]) <==> ops[i].action == Added || HashOf(t[ops[i].path]) == target[ops[i].path].hash
    {
      assert MetaFor(target, ops[i]) == [entries[i]];
      assert ops[i].action != Added ==> ops[i].path in Leaves(u);
    }
    assert forall i :: 0 <= i < |entries| ==> entries[i] in entries;
  }

  /** Reading back the backup of a listed tree succeeds exactly when no saved link is absolute and every saved
      hash is of what was saved, and then yields the old node of every path that existed. */
  lemma ExtractGivesOldNodes(t: Tree, target: Files, ops: seq<Op>)
    requires Listed(t, target, ops) && DistinctOps(ops) && Separate(Paths(ops))
    ensures Backup(t, target, ops).Some?
    ensures var x := Extract(Backup(t, target, ops).value);
            && (x.Some? <==> !SavesAbsoluteLink(t, ops) && Hashed(t, target, ops))
            && (x.Some? ==> Leaves(x.value) == OldNodes(t, ops))
  {
    hide Listed, Hashed, Leaves, Verified, Confined, Separate, NoDirAt, SavesAbsoluteLink, SavedMembers, OldNodes,
      UnpackAll, Meta;
    BackupSavesOldNodes(t, target, ops);
    UnpackSaved(t, target, ops, Paths(ops));
    var (u, ok) := UnpackAll(SavedMembers(t, ops));
    if ok {
      VerifiedIff(t, target, ops, u);
    }
  }

  /** An op on a path that must be saved finds something of the listed kind there. */
  predicate CanSave(t: Tree, target: Files, op: Op) {
    op.action != Added && op.path in target ==> op.path in t && KindOf(t[op.path], target[op.path].kind)
  }

  /** Whatever the folder and the manifest, a backup is written exactly when every listed path that it must save holds
      something of the listed kind. */
  lemma {:induction false} BackupIff(t: Tree, target: Files, ops: seq<Op>)
    ensures Backup(t, target, ops).Some? <==> forall i :: 0 <= i < |ops| ==> CanSave(t, target, ops[i])
  {
    hide CanSave;
    if |ops| == 0 {
      EmptyMeta(target);
    } else {
      var n := |ops| - 1;
      BackupIff(t, target, ops[..n]);
      assert forall i :: 0 <= i < n ==> ops[..n][i] == ops[i];
      LastKept(t, target, ops);
    }
  }

  lemma LastKept(t: Tree, target: Files, ops: seq<Op>)
    requires |ops| > 0
    ensures var n := |ops| - 1;
            Backup(t, target, ops).Some? <==> Backup(t, target, ops[..n]).Some? && CanSave(t, target, ops[n])
  {
    var n := |ops| - 1;
    var front, all := Meta(target, ops[..n]), Meta(target, ops);
    assert MetaFor(target, ops[n]) == [] ==> all == front;
    assert MetaFor(target, ops[n]) != [] ==> |all| == |front| + 1 && all[..|front|] == front;
  }

  /** Whatever an archive holds, reading it back succeeds only if every member lies at a valid path, is a file or a link
      and no absolute link, and every saved entry's path then holds something of the recorded hash. */
  lemma ExtractIsSafe(a: Archive)
    requires Extract(a).Some?
    ensures forall i :: 0 <= i < |a.members| ==>
              && ValidPath(a.members[i].path) && !a.members[i].node.Dir?
              && !(a.members[i].node.Link? && "/" <= a.members[i].node.target)
    ensures forall i :: 0 <= i < |a.entries| && a.entries[i].action != Added ==>
              && IsLeaf(Extract(a).value, a.entries[i].path)
              && HashOf(Extract(a).value[a.entries[i].path]) == a.entries[i].hash
    ensures forall i :: 0 <= i < |a.members| ==> IsLeaf(Extract(a).value, a.members[i].path)
  {
    hide ValidPath, HashOf, UnpackAll;
    UnpackedAreSafe(a.members);
    forall i | 0 <= i < |a.entries| && a.entries[i].action != Added
      ensures IsLeaf(Extract(a).value, a.entries[i].path)
      ensures HashOf(Extract(a).value[a.entries[i].path]) == a.entries[i].hash
    {
      assert a.entries[i] in a.entries;
    }
  }

  lemma {:induction false} UnpackedAreSafe(members: seq<Member>)
    requires UnpackAll(members).1
    ensures forall i :: 0 <= i < |members| ==>
              && ValidPath(members[i].path) && !members[i].node.Dir?
              && !(members[i].node.Link? && "/" <= members[i].node.target)
    ensures forall i :: 0 <= i < |members| ==> IsLeaf(UnpackAll(members).0, members[i].path)
  {
    hide ValidPath, MkdirParents, WriteFile, MakeLink, IsLeaf;
    if |members| > 0 {
      var n := |members| - 1;
      UnpackedAreSafe(members[..n]);
      var t := UnpackAll(members[..n]).0;
      forall i | 0 <= i < |members| ensures IsLeaf(UnpackAll(members).0, members[i].path) {
        UnpackKeepsLeaf(t, members[n], members[i].path);
      }
    }
  }

  /** Unpacking a member leaves a leaf at its path and every other leaf in place. */
  lemma UnpackKeepsLeaf(t: Tree, m: Member, q: Path)
    requires Unpack(t, m).1 && (IsLeaf(t, q) || q == m.path)
    ensures IsLeaf(Unpack(t, m).0, q)
  {
    hide ValidPath, IsAbs;
    assert !Blocked(t, m.path);
    assert IsLeaf(t, q) ==> q !in Parents(m.path);
  }

  // ---- Restore

  /** The flat map after undoing the ops: new paths gone, old nodes back. */
  function Rewound(leaves: Tree, t0: Tree, ops: seq<Op>): Tree {
    if |ops| == 0 then leaves
    else
      var op, rest := ops[|ops| - 1], Rewound(leaves, t0, ops[..|ops| - 1]);
      if op.action != Added && op.path in t0 then rest[op.path := t0[op.path]] else rest - {op.path}
  }

  lemma RestoreOneUndoes(t0: Tree, t: Tree, target: Files, op: Op, staged: Tree, ps: set<Path>)
    requires Separate(ps) && op.path in ps && Confined(t0, t, ps) && Listed(t0, target, [op])
               && Hashed(t0, target, [op])
    requires op.action != Added ==> op.path in staged && op.path in t0 && staged[op.path] == t0[op.path]
    ensures |MetaFor(target, op)| == 1
    ensures var (u, ok) := RestoreOne(t, staged, MetaFor(target, op)[0]);
            && ok && Confined(t0, u, ps)
            && Leaves(u) == if op.action != Added && op.path in t0 then Leaves(t)[op.path := t0[op.path]]
               else Leaves(t) - {op.path}
  {
    hide Confined, Separate, Remove, CopyEntry, ValidPath;
    assert [op][0] == op;
    RemoveConfined(t0, t, ps, op.path);
    if op.action != Added {
      var e := target[op.path];
      CopyConfined(t0, t, ps, op.path, staged, e.kind, e.mode);
      var u := CopyEntry(t, op.path, staged, e.kind, e.mode).0;
      assert op.path in Leaves(u) && u[op.path] == t0[op.path];
    }
  }

  lemma HashedShorter(t: Tree, target: Files, ops: seq<Op>)
    requires |ops| > 0 && Hashed(t, target, ops)
    ensures Hashed(t, target, ops[..|ops| - 1]) && Hashed(t, target, [ops[|ops| - 1]])
  {
    var rest := ops[..|ops| - 1];
    assert forall i :: 0 <= i < |rest| ==> rest[i] == ops[i];
  }

  lemma {:induction false} RestoreRewinds(t0: Tree, t: Tree, target: Files, ops: seq<Op>, staged: Tree, ps: set<Path>)
    requires Listed(t0, target, ops) && Hashed(t0, target, ops) && DistinctOps(ops)
    requires Separate(ps) && Paths(ops) <= ps && Confined(t0, t, ps)
    requires forall i :: 0 <= i < |ops| && ops[i].action != Added ==>
               ops[i].path in staged && ops[i].path in t0 && staged[ops[i].path] == t0[ops[i].path]
    ensures var (u, ok) := RestoreEntries(t, staged, Meta(target, ops));
            ok && Confined(t0, u, ps) && Leaves(u) == Rewound(Leaves(t), t0, ops)
  {
    hide Confined, Separate, DistinctOps, Listed, Hashed, RestoreOne, Leaves, Meta, MetaFor;
    assert Meta(target, []) == [] by { EmptyMeta(target); }
    if |ops| > 0 {
      var n := |ops| - 1;
      Shorter(t0, target, ops);
      MetaPrefix(t0, target, ops);
      HashedShorter(t0, target, ops);
      RestoreRewinds(t0, t, target, ops[..n], staged, ps);
      RestoreOneUndoes(t0, RestoreEntries(t, staged, Meta(target, ops[..n])).0, target, ops[n], staged, ps);
    }
  }

  lemma {:induction false} RewoundAt(leaves: Tree, t0: Tree, target: Files, ops: seq<Op>, p: Path)
    requires Listed(t0, target, ops) && DistinctOps(ops)
    ensures var r := Rewound(leaves, t0, ops);
            if p !in Paths(ops) then (p in r <==> p in leaves) && (p in r ==> r[p] == leaves[p])
            else if p in AddedPaths(ops) then p !in r
            else p in r && p in t0 && r[p] == t0[p] && !t0[p].Dir?
  {
    if |ops| > 0 {
      Shorter(t0, target, ops);
      RewoundAt(leaves, t0, target, ops[..|ops| - 1], p);
      AddedShorter(ops);
    }
  }

  lemma AddedShorter(ops: seq<Op>)
    requires |ops| > 0
    ensures AddedPaths(ops) == AddedPaths(ops[..|ops| - 1])
              + (if ops[|ops| - 1].action == Added then {ops[|ops| - 1].path} else {})
    ensures AddedPaths(ops) <= Paths(ops)
  {
    var rest := ops[..|ops| - 1];
    assert forall i :: 0 <= i < |rest| ==> rest[i] == ops[i];
  }

  /** Undoing from any state that agrees with the original off the plan's paths gives the original, less
      what lay at added paths. */
  lemma RewoundIsOriginal(leaves: Tree, t0: Tree, target: Files, ops: seq<Op>)
    requires Listed(t0, target, ops) && DistinctOps(ops) && leaves - Paths(ops) == Leaves(t0) - Paths(ops)
    ensures Rewound(leaves, t0, ops) == Leaves(t0) - AddedPaths(ops)
  {
    var r, want := Rewound(leaves, t0, ops), Leaves(t0) - AddedPaths(ops);
    forall p ensures (p in r <==> p in want) && (p in r && p in want ==> r[p] == want[p]) {
      RewoundAt(leaves, t0, target, ops, p);
      assert p in leaves - Paths(ops) <==> p in Leaves(t0) - Paths(ops);
      if p in leaves - Paths(ops) {
        assert (leaves - Paths(ops))[p] == (Leaves(t0) - Paths(ops))[p];
      }
      if |ops| > 0 {
        AddedShorter(ops);
      }
    }
  }

  /** The central promise. From every state of the folder that differs from the original only at paths
      of the plan, restoring the archive gives back the original files, except that a file which the
      manifest did not know at an added path is lost. It fails, leaving the folder alone, exactly when
      the archive holds an absolute link. */
  lemma RestoreUndoes(t0: Tree, t: Tree, target: Files, ops: seq<Op>)
    requires Planned(t0, target, ops) && Confined(t0, t, Paths(ops))
    ensures Backup(t0, target, ops).Some?
    ensures var (u, ok) := Restore(t, Backup(t0, target, ops).value);
            && (ok <==> !SavesAbsoluteLink(t0, ops))
            && (ok ==> Confined(t0, u, Paths(ops)) && Leaves(u) == Leaves(t0) - AddedPaths(ops))
            && (!ok ==> u == t)
  {
    hide WellFormed, Roomy, Separate, DistinctOps, ValidPath, Extract, RestoreEntries, SavesAbsoluteLink, OldNodes,
      Rewound;
    PlannedIsListed(t0, target, ops);
    ExtractGivesOldNodes(t0, target, ops);
    OldNodesKeys(t0, target, ops);
    var x := Extract(Backup(t0, target, ops).value);
    if x.Some? {
      RestoreRewinds(t0, t, target, ops, x.value, Paths(ops));
      RewoundIsOriginal(Leaves(t), t0, target, ops);
    }
  }

  /** Nothing unlisted lies at a path that the sync adds. */
  predicate AddsFresh(t: Tree, ops: seq<Op>) { forall p :: p in AddedPaths(ops) ==> !IsLeaf(t, p) }

  /** So the original is there afterwards, file for file, exactly when no saved link is absolute and nothing
      unlisted lay at an added path, or a saved link is absolute and nothing had been changed. */
  lemma RestoresExactlyWhen(t0: Tree, t: Tree, target: Files, ops: seq<Op>)
    requires Planned(t0, target, ops) && Confined(t0, t, Paths(ops))
    ensures Backup(t0, target, ops).Some?
    ensures Leaves(Restore(t, Backup(t0, target, ops).value).0) == Leaves(t0)
            <==> if SavesAbsoluteLink(t0, ops) then Leaves(t) == Leaves(t0) else AddsFresh(t0, ops)
  {
    hide Planned, Confined, Leaves, Restore, Backup, SavesAbsoluteLink, AddsFresh;
    RestoreUndoes(t0, t, target, ops);
    FreshIffKept(t0, ops);
  }

  lemma FreshIffKept(t0: Tree, ops: seq<Op>)
    ensures Leaves(t0) - AddedPaths(ops) == Leaves(t0) <==> AddsFresh(t0, ops)
  {
    if AddsFresh(t0, ops) {
      assert Leaves(t0) - AddedPaths(ops) == Leaves(t0);
    } else {
      var p :| p in AddedPaths(ops) && IsLeaf(t0, p);
      assert p in Leaves(t0) && p !in Leaves(t0) - AddedPaths(ops);
    }
  }

  /** Restoring twice is restoring once. */
  lemma RestoreTwice(t0: Tree, t: Tree, target: Files, ops: seq<Op>)
    requires Planned(t0, target, ops) && Confined(t0, t, Paths(ops))
    ensures Backup(t0, target, ops).Some?
    ensures var a := Backup(t0, target, ops).value;
            var (u, ok) := Restore(t, a);
            Restore(u, a).1 == ok && Leaves(Restore(u, a).0) == Leaves(u)
  {
    RestoreUndoes(t0, t, target, ops);
    var (u, ok) := Restore(t, Backup(t0, target, ops).value);
    if ok {
      RestoreUndoes(t0, u, target, ops);
    }
  }

  // ---- Interrupted restores

  lemma RestoreOneConfined(t0: Tree, t: Tree, staged: Tree, e: BackupEntry, f: Fault, ps: set<Path>)
    requires Separate(ps) && e.path in ps && Confined(t0, t, ps)
    ensures Confined(t0, RestoreOneWith(t, staged, e, f).0, ps)
  {
    hide Confined, Separate, Remove, CopyEntry, MkdirParents;
    RemoveConfined(t0, t, ps, e.path);
    ClearConfined(t0, t, ps, e.path);
    CopyConfined(t0, t, ps, e.path, staged, e.kind, e.mode);
    if f.HalfWritten? {
      CopyConfined(t0, t, ps, e.path, Truncated(staged, e.path, f.n), e.kind, e.mode);
    }
  }

  lemma {:induction false} RestoreConfined(t0: Tree, t: Tree, target: Files, ops: seq<Op>, staged: Tree,
                                           faults: seq<Fault>, ps: set<Path>)
    requires Listed(t0, target, ops) && DistinctOps(ops) && Separate(ps) && Paths(ops) <= ps && Confined(t0, t, ps)
    ensures Confined(t0, RestoreEntriesWith(t, staged, Meta(target, ops), faults).0, ps)
  {
    hide Confined, Separate, DistinctOps, Listed, RestoreOneWith, Meta, MetaFor;
    assert Meta(target, []) == [] by { EmptyMeta(target); }
    if |ops| > 0 {
      var n := |ops| - 1;
      Shorter(t0, target, ops);
      MetaPrefix(t0, target, ops);
      RestoreConfined(t0, t, target, ops[..n], staged, faults, ps);
      var u := RestoreEntriesWith(t, staged, Meta(target, ops[..n]), faults).0;
      EntryAt(t0, target, ops);
      RestoreOneConfined(t0, u, staged, Meta(target, ops)[n], FaultAt(faults, n), ps);
    }
  }

  lemma EntryAt(t: Tree, target: Files, ops: seq<Op>)
    requires Listed(t, target, ops) && |ops| > 0
    ensures |Meta(target, ops)| == |ops| && Meta(target, ops)[|ops| - 1].path == ops[|ops| - 1].path
  {
    MetaPrefix(t, target, ops);
  }

  /** A restore stopped anywhere, by any fault, can be done again: it leaves a state that differs from the original
      only at paths of the plan, and from there a clean restore gives what the first one should have. */
  lemma InterruptedRestore(t0: Tree, t: Tree, target: Files, ops: seq<Op>, opens: bool, faults: seq<Fault>)
    requires Planned(t0, target, ops) && Confined(t0, t, Paths(ops))
    ensures Backup(t0, target, ops).Some?
    ensures var a := Backup(t0, target, ops).value;
            var (u, ok) := RestoreWith(t, a, opens, faults);
            var (v, again) := Restore(u, a);
            && Confined(t0, u, Paths(ops))
            && (ok <==> opens && Faultless(faults, |ops|) && !SavesAbsoluteLink(t0, ops))
            && (ok ==> u == Restore(t, a).0)
            && (again <==> !SavesAbsoluteLink(t0, ops))
            && (again ==> Leaves(v) == Leaves(t0) - AddedPaths(ops))
  {
    hide Confined, Extract, RestoreEntries, RestoreEntriesWith, SavesAbsoluteLink, Meta, Faultless, Separate, Leaves,
      AddedPaths;
    RestoreUndoes(t0, t, target, ops);
    PlannedIsListed(t0, target, ops);
    MetaShape(t0, target, ops);
    var a := Backup(t0, target, ops).value;
    RestoreFaultsShow(t, a, opens, faults);
    var u := RestoreWith(t, a, opens, faults).0;
    assert Confined(t0, u, Paths(ops)) by {
      if opens && Extract(a).Some? {
        RestoreConfined(t0, t, target, ops, Extract(a).value, faults, Paths(ops));
      }
    }
    RestoreUndoes(t0, u, target, ops);
  }

  // ---- Apply

  lemma ApplyOneConfined(t0: Tree, t: Tree, staged: Tree, source: Files, op: Op, f: Fault, ps: set<Path>)
    requires Separate(ps) && op.path in ps && Confined(t0, t, ps)
    ensures Confined(t0, ApplyOne(t, staged, source, op, f).0, ps)
  {
    hide Confined, Separate, Remove, CopyEntry, MkdirParents;
    var (kind, mode) := SourceOf(source, op.path);
    RemoveConfined(t0, t, ps, op.path);
    ClearConfined(t0, t, ps, op.path);
    CopyConfined(t0, t, ps, op.path, staged, kind, mode);
    if f.HalfWritten? {
      CopyConfined(t0, t, ps, op.path, Truncated(staged, op.path, f.n), kind, mode);
    }
  }

  lemma {:induction false} ApplyConfinedFrom(t0: Tree, t: Tree, staged: Tree, source: Files, ops: seq<Op>,
                                             faults: seq<Fault>, i: nat)
    requires i <= |ops| && Separate(Paths(ops)) && Confined(t0, t, Paths(ops))
    ensures Confined(t0, Apply(t, staged, source, ops, faults, i).0, Paths(ops))
  {
    if i > 0 {
      hide Confined, Separate, ApplyOne;
      ApplyConfinedFrom(t0, t, staged, source, ops, faults, i - 1);
      ApplyOneConfined(t0, Apply(t, staged, source, ops, faults, i - 1).0, staged, source, ops[i - 1],
          FaultAt(faults, i - 1), Paths(ops));
    }
  }

  /** Whatever fails, and wherever, an apply changes only paths of the plan. */
  lemma ApplyConfined(t0: Tree, staged: Tree, source: Files, ops: seq<Op>, faults: seq<Fault>, i: nat)
    requires i <= |ops| && WellFormed(t0) && PrefixFree(t0, ops)
    ensures Confined(t0, Apply(t0, staged, source, ops, faults, i).0, Paths(ops))
  {
    ApplyConfinedFrom(t0, t0, staged, source, ops, faults, i);
  }

  /** Apply with any script of faults, then restore: the original files are back. */
  lemma ApplyThenRestore(t0: Tree, staged: Tree, source: Files, target: Files, ops: seq<Op>, faults: seq<Fault>, i: nat)
    requires i <= |ops| && Planned(t0, target, ops) && !SavesAbsoluteLink(t0, ops)
    requires AddsFresh(t0, ops)
    ensures Backup(t0, target, ops).Some?
    ensures var (u, ok) := Restore(Apply(t0, staged, source, ops, faults, i).0, Backup(t0, target, ops).value);
            ok && Leaves(u) == Leaves(t0)
  {
    ApplyConfined(t0, staged, source, ops, faults, i);
    RestoreUndoes(t0, Apply(t0, staged, source, ops, faults, i).0, target, ops);
    FreshIffKept(t0, ops);
  }

  /** The staged tree holds something of the planned kind at every path that the plan transfers. */
  predicate StagedFor(staged: Tree, source: Files, ops: seq<Op>) {
    forall op :: op in ops && op.action != Deleted ==>
      op.path in source && op.path in staged && KindOf(staged[op.path], source[op.path].kind)
  }

  predicate Applied(leaves: Tree, staged: Tree, source: Files, op: Op) {
    if op.action == Deleted then op.path !in leaves
    else
      op.path in leaves && op.path in staged && op.path in source
      && leaves[op.path] == Copied(staged[op.path], source[op.path].mode)
  }

  lemma ApplyOneEffect(t0: Tree, t: Tree, staged: Tree, source: Files, op: Op, ps: set<Path>)
    requires Separate(ps) && op.path in ps && Confined(t0, t, ps) && StagedFor(staged, source, [op])
    ensures var (u, ok) := ApplyOne(t, staged, source, op, NoFault);
            ok && Leaves(u) - {op.path} == Leaves(t) - {op.path} && Applied(Leaves(u), staged, source, op)
  {
    hide Confined, Separate, Remove, CopyEntry, MkdirParents, Leaves;
    assert op in [op];
    var (kind, mode) := SourceOf(source, op.path);
    RemoveConfined(t0, t, ps, op.path);
    CopyConfined(t0, t, ps, op.path, staged, kind, mode);
    assert Leaves(t) - {op.path} - {op.path} == Leaves(t) - {op.path};
    if op.action != Deleted {
      assert Leaves(t)[op.path := Copied(staged[op.path], mode)] - {op.path} == Leaves(t) - {op.path};
    }
  }

  lemma {:induction false} ApplyEffect(t0: Tree, t: Tree, staged: Tree, source: Files, ops: seq<Op>,
                                       faults: seq<Fault>, i: nat)
    requires i <= |ops| && Separate(Paths(ops)) && DistinctOps(ops) && StagedFor(staged, source, ops)
    requires Confined(t0, t, Paths(ops))
    ensures var (u, ok) := Apply(t, staged, source, ops, faults, i);
            && (ok <==> Faultless(faults, i))
            && (ok ==> forall j :: 0 <= j < i ==> Applied(Leaves(u), staged, source, ops[j]))
  {
    if i > 0 {
      hide Confined, Separate, ApplyOne, Leaves, StagedFor;
      ApplyEffect(t0, t, staged, source, ops, faults, i - 1);
      ApplyConfinedFrom(t0, t, staged, source, ops, faults, i - 1);
      var (w, ok) := Apply(t, staged, source, ops, faults, i - 1);
      FaultyOpFails(w, staged, source, ops[i - 1], FaultAt(faults, i - 1));
      if ok && FaultAt(faults, i - 1) == NoFault {
        StagedForOne(staged, source, ops, i - 1);
        ApplyOneEffect(t0, w, staged, source, ops[i - 1], Paths(ops));
        var u := Apply(t, staged, source, ops, faults, i).0;
        forall j | 0 <= j < i - 1 ensures Applied(Leaves(u), staged, source, ops[j]) {
          OtherLeaf(Leaves(w), Leaves(u), ops[i - 1].path, ops[j].path);
        }
      }
    }
  }

  lemma StagedForOne(staged: Tree, source: Files, ops: seq<Op>, i: nat)
    requires i < |ops| && StagedFor(staged, source, ops)
    ensures StagedFor(staged, source, [ops[i]])
  {
    assert ops[i] in ops;
  }

  lemma FaultyOpFails(t: Tree, staged: Tree, source: Files, op: Op, f: Fault)
    ensures f != NoFault ==> !ApplyOne(t, staged, source, op, f).1
  {
    hide Remove, CopyEntry, MkdirParents;
  }

  lemma OtherLeaf(a: Tree, b: Tree, p: Path, q: Path)
    requires a - {p} == b - {p} && p != q
    ensures (q in a <==> q in b) && (q in a ==> a[q] == b[q])
  {
    assert q in a <==> q in a - {p};
    assert q in b <==> q in b - {p};
    assert q in a ==> (a - {p})[q] == (b - {p})[q];
  }

  /** A clean apply of a diff leaves at every changed path what was staged there, with the planned mode, nothing at a
      deleted one, and everything else as it was. */
  lemma ApplyDiffGivesStaged(t0: Tree, staged: Tree, source: Files, target: Files, ops: seq<Op>)
    requires Planned(t0, target, ops) && IsDiff(ops, source, target) && StagedFor(staged, source, ops)
    ensures var (u, ok) := Apply(t0, staged, source, ops, [], |ops|);
            ok && forall p ::
              match Change(source, target, p)
              case Some(Deleted) => !IsLeaf(u, p)
              case Some(_) => p in staged && IsLeaf(u, p) && u[p] == Copied(staged[p], source[p].mode)
              case None => (IsLeaf(u, p) <==> IsLeaf(t0, p)) && (IsLeaf(u, p) ==> u[p] == t0[p])
  {
    hide Change;
    ApplyEffect(t0, t0, staged, source, ops, [], |ops|);
    ApplyConfined(t0, staged, source, ops, [], |ops|);
    var u := Apply(t0, staged, source, ops, [], |ops|).0;
    forall p | Change(source, target, p).None?
      ensures (IsLeaf(u, p) <==> IsLeaf(t0, p)) && (IsLeaf(u, p) ==> u[p] == t0[p])
    {
      UntouchedLeaf(t0, u, source, target, ops, p);
    }
    forall p | Change(source, target, p).Some?
      ensures Applied(Leaves(u), staged, source, Op(p, Change(source, target, p).value))
                && (IsLeaf(u, p) <==> p in Leaves(u))
    {
      var op := Op(p, Change(source, target, p).value);
      var j :| 0 <= j < |ops| && ops[j] == op;
    }
  }

  /** An apply succeeds exactly when no op meets a fault, and one that was stopped anywhere can be done again, without
      a restore between: the second gives the files that a clean apply of the first folder gives. */
  lemma InterruptedApply(t0: Tree, staged: Tree, source: Files, ops: seq<Op>, faults: seq<Fault>)
    requires WellFormed(t0) && PrefixFree(t0, ops) && DistinctOps(ops) && StagedFor(staged, source, ops)
    ensures var (u, ok) := Apply(t0, staged, source, ops, faults, |ops|);
            var (v, again) := Apply(u, staged, source, ops, [], |ops|);
            && (ok <==> Faultless(faults, |ops|))
            && again && Leaves(v) == Leaves(Apply(t0, staged, source, ops, [], |ops|).0)
            && (ok ==> Leaves(u) == Leaves(v))
  {
    hide Apply, Confined, Roomy, Leaves, Separate, StagedFor;
    var n := |ops|;
    var u := Apply(t0, staged, source, ops, faults, n).0;
    ApplyConfined(t0, staged, source, ops, faults, n);
    ApplyConfined(t0, staged, source, ops, [], n);
    assert Confined(t0, t0, Paths(ops)) by { ConfinedSelf(t0, ops); }
    ApplyEffect(t0, t0, staged, source, ops, faults, n);
    ApplyEffect(t0, t0, staged, source, ops, [], n);
    ApplyEffect(t0, u, staged, source, ops, [], n);
    ApplyConfinedFrom(t0, u, staged, source, ops, [], n);
    SameFiles(t0, Apply(u, staged, source, ops, [], n).0, Apply(t0, staged, source, ops, [], n).0, staged, source, ops);
    if Faultless(faults, n) {
      SameFiles(t0, u, Apply(t0, staged, source, ops, [], n).0, staged, source, ops);
    }
  }

  lemma ConfinedSelf(t: Tree, ops: seq<Op>)
    requires WellFormed(t) && PrefixFree(t, ops)
    ensures Confined(t, t, Paths(ops))
  {
  }

  /** What the ops ask for and what they leave alone settle every file. */
  lemma SameFiles(t0: Tree, u: Tree, v: Tree, staged: Tree, source: Files, ops: seq<Op>)
    requires Confined(t0, u, Paths(ops)) && Confined(t0, v, Paths(ops))
    requires forall j :: 0 <= j < |ops| ==> Applied(Leaves(u), staged, source, ops[j])
    requires forall j :: 0 <= j < |ops| ==> Applied(Leaves(v), staged, source, ops[j])
    ensures Leaves(u) == Leaves(v)
  {
    var a, b := Leaves(u), Leaves(v);
    assert a - Paths(ops) == b - Paths(ops);
    forall p ensures (p in a <==> p in b) && (p in a ==> a[p] == b[p]) {
      if p in Paths(ops) {
        var j :| 0 <= j < |ops| && ops[j].path == p;
        assert Applied(a, staged, source, ops[j]) && Applied(b, staged, source, ops[j]);
      } else {
        OffThePaths(a, b, Paths(ops), p);
      }
    }
  }

  lemma OffThePaths(a: Tree, b: Tree, ps: set<Path>, p: Path)
    requires a - ps == b - ps && p !in ps
    ensures (p in a <==> p in b) && (p in a ==> a[p] == b[p])
  {
    assert p in a <==> p in a - ps;
    assert p in b <==> p in b - ps;
    assert p in a ==> (a - ps)[p] == (b - ps)[p];
  }

  /** So when what was staged has the planned hashes, a folder that matches one manifest becomes a folder that
      matches the other: every listed path holds what the source says, and no other listed path is left. */
  lemma ApplyDiffGivesSource(t0: Tree, staged: Tree, source: Files, target: Files, ops: seq<Op>)
    requires Planned(t0, target, ops) && IsDiff(ops, source, target) && StagedFor(staged, source, ops)
    requires forall op :: op in ops && op.action != Deleted ==> HashOf(staged[op.path]) == source[op.path].hash
    ensures var (u, ok) := Apply(t0, staged, source, ops, [], |ops|);
            && ok
            && (forall p :: p in source ==> IsLeaf(u, p) && Describes(source[p], u[p]))
            && (forall p :: p in target && p !in source ==> !IsLeaf(u, p))
            && (forall p :: p !in source && p !in target ==>
                  (IsLeaf(u, p) <==> IsLeaf(t0, p)) && (IsLeaf(u, p) ==> u[p] == t0[p]))
  {
    hide Apply, PrefixFree, DistinctOps, WellFormed, ValidPath, StrictlySorted;
    ApplyDiffGivesStaged(t0, staged, source, target, ops);
    var u := Apply(t0, staged, source, ops, [], |ops|).0;
    forall p | p in source ensures IsLeaf(u, p) && Describes(source[p], u[p]) {
      if Change(source, target, p).Some? {
        assert Op(p, Change(source, target, p).value) in ops;
      }
    }
  }

  lemma UntouchedLeaf(t0: Tree, u: Tree, source: Files, target: Files, ops: seq<Op>, p: Path)
    requires IsDiff(ops, source, target) && Confined(t0, u, Paths(ops)) && Change(source, target, p).None?
    ensures (IsLeaf(u, p) <==> IsLeaf(t0, p)) && (IsLeaf(u, p) ==> u[p] == t0[p])
  {
    assert p !in Paths(ops) by {
      forall i | 0 <= i < |ops| ensures ops[i].path != p { assert ops[i] in ops; }
    }
    assert IsLeaf(u, p) <==> p in Leaves(u) - Paths(ops);
    assert IsLeaf(t0, p) <==> p in Leaves(t0) - Paths(ops);
    assert p in Leaves(u) - Paths(ops) ==> (Leaves(u) - Paths(ops))[p] == (Leaves(t0) - Paths(ops))[p];
  }
}
