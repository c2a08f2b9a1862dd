/** When a failed upload leaves the container as it was, and when an upload succeeds
    (server/internal/sync/service.go). */
module SyncRollback {
  import opened Sorting
  import opened SyncBackup
  import opened SyncFolder
  import opened SyncManifest
  import opened SyncReceive
  import opened SyncRestore
  import opened SyncSend
  import opened SyncUpload
  import opened Wrappers

  // ---- The apply and its rollback

  /** Whatever fails, the apply of an upload changes only paths of the plan, and leaves the added ones fit for
      removal. */
  lemma SendApplyEffect(t: Tree, client: Files, server: Files, ops: seq<Op>, staged: Tree, f: Faults)
    requires SendPlanned(t, client, server, ops) && Keyed(client)
    ensures var u := SendApply(t, staged, client, ops, f).0;
            Confined(t, u, Paths(ops)) && (Sweepable(t, ops) ==> Tidy(u, ops))
  {
    hide UploadAll, RmAll, PathsOf, Transfer, Confined, Separate, Tidy, Sweepable, StrictlySorted, DistinctOps,
      NoNewDirs, Frontier, SameOff, Incoming, AddedPaths, Affected, ServerAccurate, PrefixFree, WellFormed, Listed,
      Hashed, SavesLink;
    SendOps(t, client, server, ops);
    var es := Transfer(client, ops);
    OpSets(ops);
    assert forall p :: p in Incoming(ops) ==> p in client by { IncomingInClient(client, ops); }
    assert StrictlySorted(ops);
    TransferSorted(client, ops);
    var k := UploadEffect(t, t, Paths(ops), staged, es, f.up);
    var (a, ok) := UploadAll(t, staged, es, f.up);
    if Sweepable(t, ops) {
      UploadTidy(t, a, staged, client, ops, k);
    }
    if ok {
      var rs := PathsOf(ops, Deleted);
      PathsOfSorted(ops, Deleted);
      RmAllEffect(t, a, Paths(ops), rs, f.rm);
      if Sweepable(t, ops) {
        StaysTidy(a, RmAll(a, rs, f.rm).0, ops, PathSet(rs));
      }
    }
  }

  lemma IncomingInClient(client: Files, ops: seq<Op>)
    requires forall op :: op in ops && op.action != Deleted ==> op.path in client
    ensures forall p :: p in Incoming(ops) ==> p in client
  {
    forall p | p in Incoming(ops) ensures p in client {
      var i :| 0 <= i < |ops| && ops[i].action != Deleted && ops[i].path == p;
      assert ops[i] in ops;
    }
  }

  /** The entries uploaded again are those of the affected paths, with their old kinds and modes. */
  lemma {:induction false} StagedEntriesOf(t: Tree, server: Files, ops: seq<Op>, x: Tree)
    requires Listed(t, server, ops) && DistinctOps(ops)
    ensures var es := StagedEntries(x, Meta(server, ops));
            && DistinctPaths(es) && EntrySet(es) == Affected(ops)
            && forall e :: e in es ==> e.path in t && KindAndMode(e, t[e.path]) && IsLeaf(t, e.path)
  {
    hide Listed, DistinctOps, Affected, Meta, MetaFor, SizeAt, IsLeaf, KindOf, EntrySet, DistinctPaths;
    if |ops| == 0 {
      EmptyMeta(server);
      assert Affected(ops) == {} by { OnlyAddsMeans(ops); }
      NoEntries();
    } else {
      var n := |ops| - 1;
      Shorter(t, server, ops);
      AffectedStep(ops);
      StagedEntriesOf(t, server, ops[..n], x);
      MetaPrefix(t, server, ops);
      var es, rest := StagedEntries(x, Meta(server, ops)), StagedEntries(x, Meta(server, ops[..n]));
      var be := Meta(server, ops)[n];
      EntryOf(t, server, ops[n], be);
      if ops[n].action == Added {
        assert rest + [] == rest;
      } else {
        EntrySetSnoc(rest, Entry(be.path, SizeAt(x, be), be.mode, be.kind, be.hash));
      }
    }
  }

  /** `e` asks to upload what was saved of `b` again: a regular file with the size it was read back with. */
  ghost predicate Returns(x: Tree, b: BackupEntry, e: Entry) {
    && b.action != Added && e.path == b.path && e.mode == b.mode && e.kind == b.kind && e.hash == b.hash
    && (e.kind == RegularFile && IsLeaf(x, e.path) && x[e.path].File? ==> e.size == |x[e.path].bytes|)
    && (e.kind == Symlink ==> e.size == 0)
  }

  ghost predicate Described(x: Tree, entries: seq<BackupEntry>, e: Entry) {
    exists b :: b in entries && Returns(x, b, e)
  }

  ghost predicate Returned(x: Tree, es: Manifest, b: BackupEntry) { exists e :: e in es && Returns(x, b, e) }

  /** A rollback uploads an entry for every saved one, as the archive describes it, and no other. */
  lemma {:induction false} SavedAreReturned(x: Tree, entries: seq<BackupEntry>)
    ensures forall e :: e in StagedEntries(x, entries) ==> Described(x, entries, e)
    ensures forall b :: b in entries && b.action != Added ==> Returned(x, StagedEntries(x, entries), b)
  {
    hide Returns;
    if |entries| > 0 {
      var n := |entries| - 1;
      var rest, b := entries[..n], entries[n];
      var was, es := StagedEntries(x, rest), StagedEntries(x, entries);
      SavedAreReturned(x, rest);
      LastIsReturned(x, b);
      hide StagedEntries;
      assert entries == rest + [b];
      forall e | e in es ensures Described(x, entries, e) {
        assert e in was || Returns(x, b, e);
      }
      forall c | c in entries && c.action != Added ensures Returned(x, es, c) {
        if c in rest {
          assert Returned(x, was, c);
        }
      }
    }
  }

  lemma LastIsReturned(x: Tree, b: BackupEntry)
    ensures b.action != Added ==> Returns(x, b, Entry(b.path, SizeAt(x, b), b.mode, b.kind, b.hash))
  {
  }

  lemma NoEntries()
    ensures EntrySet([]) == {} && DistinctPaths([])
  {
  }

  lemma EntrySetSnoc(es: Manifest, e: Entry)
    requires DistinctPaths(es) && e.path !in EntrySet(es)
    ensures DistinctPaths(es + [e]) && EntrySet(es + [e]) == EntrySet(es) + {e.path}
  {
    assert forall i :: 0 <= i < |es| ==> es[i].path in EntrySet(es);
    assert (es + [e])[..|es|] == es;
    EntrySetStep(es + [e]);
  }

  lemma EntryOf(t: Tree, server: Files, op: Op, be: BackupEntry)
    requires Listed(t, server, [op]) && MetaFor(server, op) == [be]
    ensures be.path == op.path && be.action == op.action
    ensures op.action != Added ==>
              op.path in t && IsLeaf(t, op.path) && KindOf(t[op.path], be.kind)
                  && (t[op.path].File? ==> t[op.path].mode == be.mode)
  {
    hide ValidPath;
    assert [op][0] == op;
  }

  /** Where a rollback without new faults leads from `w`: the old files are back, an added path that removal reaches is
      cleared, and at any other added path `w` stays. */
  ghost predicate RolledTo(t: Tree, w: Tree, v: Tree, ops: seq<Op>) {
    && (forall p :: p !in AddedPaths(ops) ==> SameAt(t, v, p))
    && (forall p :: p in AddedPaths(ops) ==> if Swept(w, ops, p) then !IsLeaf(v, p) else SameAt(w, v, p))
  }

  /** No added path holds a directory. */
  predicate NoneInTheWay(w: Tree, ops: seq<Op>) { forall p :: p in AddedPaths(ops) ==> !(p in w && w[p].Dir?) }

  /** A rollback without faults from any state the apply can leave. */
  lemma RollbackEffect(t: Tree, u: Tree, server: Files, ops: seq<Op>, a: Archive, f: Faults)
    requires Listed(t, server, ops) && StrictlySorted(ops) && DistinctOps(ops) && Separate(Paths(ops))
    requires Confined(t, u, Paths(ops)) && QuietRollback(f)
    requires a.entries == Meta(server, ops) && Extract(a).Some?
    requires forall p :: p in Affected(ops) ==> p in t && p in Extract(a).value && Extract(a).value[p] == t[p]
    ensures var (v, ok) := Rollback(u, Some(a), ops, f); RolledTo(t, u, v, ops) && (ok <==> NoneInTheWay(u, ops))
  {
    hide Extract, UploadAll, RmAll, PathsOf, StagedEntries, Meta, Confined, Separate, StrictlySorted, DistinctOps,
      NoNewDirs, Frontier, AddedPaths, Affected, Listed, Leaves, KindOf, Swept, SameOff, Ascending;
    var x := Extract(a).value;
    var es := StagedEntries(x, a.entries);
    StagedEntriesOf(t, server, ops, x);
    OpSets(ops);
    forall e | e in es
      ensures e.path in x && x[e.path] == t[e.path] && KindOf(x[e.path], e.kind)
                && Copied(x[e.path], e.mode) == t[e.path]
    {
      assert e.path in EntrySet(es);
      CopiedIsOld(t[e.path], e);
    }
    UploadClean(t, u, Paths(ops), x, es);
    var _ := UploadEffect(t, u, Paths(ops), x, es, []);
    var v := UploadAll(u, x, es, []).0;
    AddedInOrder(ops);
    var rs := PathsOf(ops, Added);
    var k := RmUntil(t, v, Paths(ops), rs);
    var w := RmAll(v, rs, []).0;
    forall p | p in Affected(ops) ensures IsLeaf(v, p) && IsLeaf(t, p) && v[p] == t[p] {
      var i :| 0 <= i < |es| && es[i].path == p;
      assert es[i] in es;
    }
    RemovedTo(t, u, v, w, ops, rs, k);
  }

  lemma RemovedTo(t: Tree, u: Tree, v: Tree, w: Tree, ops: seq<Op>, rs: seq<Path>, k: nat)
    requires Paths(ops) == AddedPaths(ops) + Affected(ops) && AddedPaths(ops) !! Affected(ops)
    requires Confined(t, w, Paths(ops)) && SameOff(u, v, Affected(ops)) && NoNewDirs(u, v, Paths(ops))
    requires forall q :: q in u && q !in Affected(ops) ==> q in v && v[q] == u[q]
    requires forall p :: p in Affected(ops) ==> IsLeaf(v, p) && IsLeaf(t, p) && v[p] == t[p]
    requires Ascending(rs) && PathSet(rs) == AddedPaths(ops) && k <= |rs|
    requires forall i :: 0 <= i < k ==> !(rs[i] in v && v[rs[i]].Dir?) && !IsLeaf(w, rs[i])
    requires k < |rs| ==> rs[k] in v && v[rs[k]].Dir?
    requires forall q :: q in v && q !in rs[..k] ==> q in w && w[q] == v[q]
    requires forall q :: q in w ==> q in v && w[q] == v[q]
    ensures RolledTo(t, u, w, ops) && (k == |rs| <==> NoneInTheWay(u, ops))
  {
    hide AddedPaths, Affected, WellFormed, Roomy, Swept, Ascending;
    LeavesSameOff(t, w, Paths(ops));
    forall i | 0 <= i < |rs| ensures (rs[i] in v && v[rs[i]].Dir?) <==> (rs[i] in u && u[rs[i]].Dir?) {
      assert rs[i] in PathSet(rs);
    }
    forall p | p !in AddedPaths(ops) ensures SameAt(t, w, p) {
      if p in Affected(ops) {
        assert p !in rs[..k] by { NotAmong(rs, k, p); }
      }
    }
    forall p | p in AddedPaths(ops) ensures if Swept(u, ops, p) then !IsLeaf(w, p) else SameAt(u, w, p) {
      var i :| 0 <= i < |rs| && rs[i] == p;
      SweptIff(u, ops, rs, k, i);
      if i >= k {
        assert p !in rs[..k] by { Later(rs, k, i); }
        assert SameAt(u, v, p);
      }
    }
    if k < |rs| {
      assert rs[k] in PathSet(rs);
    }
  }

  lemma NotAmong(rs: seq<Path>, k: nat, p: Path)
    requires k <= |rs| && p !in PathSet(rs)
    ensures p !in rs[..k]
  {
  }

  lemma Later(rs: seq<Path>, k: nat, i: nat)
    requires Ascending(rs) && k <= i < |rs|
    ensures rs[i] !in rs[..k]
  {
    hide TextLe;
  }

  lemma CopiedIsOld(n: Node, e: Entry)
    requires KindAndMode(e, n)
    ensures KindOf(n, e.kind) && Copied(n, e.mode) == n
  {
  }

  /** What the rollback leaves is the original: nothing stood at an added path that removal reaches, and at any
      other the apply had changed nothing. */
  ghost predicate Undone(t: Tree, w: Tree, ops: seq<Op>) {
    forall p :: p in AddedPaths(ops) ==> if Swept(w, ops, p) then !IsLeaf(t, p) else SameAt(t, w, p)
  }

  lemma RolledBackIff(t: Tree, w: Tree, v: Tree, ops: seq<Op>)
    requires RolledTo(t, w, v, ops)
    ensures Leaves(v) == Leaves(t) <==> Undone(t, w, ops)
    ensures Tidy(w, ops) ==> Leaves(v) == Leaves(t) - AddedPaths(ops)
  {
    hide AddedPaths, Swept, TextLe;
    if Undone(t, w, ops) {
      forall p ensures SameAt(t, v, p) {
        if p in AddedPaths(ops) && !Swept(w, ops, p) {
          assert SameAt(t, w, p) && SameAt(w, v, p);
        }
      }
      SameEverywhere(t, v);
    }
    if Leaves(v) == Leaves(t) {
      LeavesSameOff(t, v, {}) by { assert Leaves(v) - {} == Leaves(t) - {}; }
      forall p | p in AddedPaths(ops) ensures if Swept(w, ops, p) then !IsLeaf(t, p) else SameAt(t, w, p) {
        assert SameAt(t, v, p);
      }
    }
    if Tidy(w, ops) {
      TidyIsCleared(t, w, v, ops);
    }
  }

  lemma SameEverywhere(t: Tree, v: Tree)
    requires forall p :: SameAt(t, v, p)
    ensures Leaves(v) == Leaves(t)
  {
    forall p ensures p in Leaves(v) <==> p in Leaves(t) { assert SameAt(t, v, p); }
    forall p | p in Leaves(t) ensures Leaves(v)[p] == Leaves(t)[p] { assert SameAt(t, v, p); }
  }

  lemma TidyIsCleared(t: Tree, w: Tree, v: Tree, ops: seq<Op>)
    requires RolledTo(t, w, v, ops) && Tidy(w, ops)
    ensures Leaves(v) == Leaves(t) - AddedPaths(ops)
  {
    hide AddedPaths, TextLe;
    forall p | p in AddedPaths(ops) ensures !IsLeaf(v, p) {
      if !Swept(w, ops, p) {
        assert SameAt(w, v, p) && !IsLeaf(w, p);
      }
    }
    forall p ensures p in Leaves(v) <==> p in Leaves(t) - AddedPaths(ops) {
      assert p !in AddedPaths(ops) ==> SameAt(t, v, p);
    }
    forall p | p in Leaves(v) ensures Leaves(v)[p] == (Leaves(t) - AddedPaths(ops))[p] {
      assert SameAt(t, v, p);
    }
  }

  /** How an upload ends when its rollback meets no new fault. A payload that is not admitted or a target that is
      not saved changes nothing, and the target is not saved exactly when an affected link is absolute or the
      archive cannot be written. After a failed apply or check, with `w` what the apply left: a plan that only adds
      files has no archive, so `w` stays and no further error is reported; with any link saved the archive fails its
      check, so `w` stays and the restore is reported as failed; otherwise the old files are back and added paths
      are cleared up to the first that holds a directory. Whether that is the original is `Undone`; where added
      paths held no file at the start, or no directory, it is exactly when they held no file. */
  lemma SendRollsBackIff(t: Tree, client: Manifest, server: Manifest, ops: seq<Op>, payload: seq<TarMember>, f: Faults,
                         git: Tree -> Option<seq<Path>>)
    requires SendPlanned(t, Index(client), Index(server), ops) && QuietRollback(f)
    ensures var (v, end) := Uploaded(t, client, server, ops, payload, f, git);
            var staged := Staged(payload, Index(Transfer(Index(client), ops)), true);
            && (end == NotAdmitted <==> staged.None?)
            && (end == NotSaved <==> staged.Some? && (SavesAbsoluteLink(t, ops) || (!OnlyAdds(ops) && !f.saves)))
            && (end == NotAdmitted || end == NotSaved ==> v == t)
            && (end.TakenBack? ==>
                  && staged.Some?
                  && var w := SendApply(t, staged.value, Index(client), ops, f).0;
                  if OnlyAdds(ops) then v == w && end.restored
                  else if SavesLink(t, ops) then v == w && !end.restored
                  else
                    && RolledTo(t, w, v, ops) && (end.restored <==> NoneInTheWay(w, ops))
                    && (Leaves(v) == Leaves(t) <==> Undone(t, w, ops))
                    && (Sweepable(t, ops) ==> Leaves(v) == Leaves(t) - AddedPaths(ops))
                    && (Sweepable(t, ops) ==> (Leaves(v) == Leaves(t) <==> AddsFresh(t, ops))))
  {
    hide Staged, Save, SendApply, Rollback, SendPlanned, Sweepable, Tidy, Confined, SavesLink, SavesAbsoluteLink,
      OnlyAdds, AddsFresh, Leaves, AddedPaths, Index, Transfer, ContainerFiles, Matches, Extract, Affected, RolledTo,
      Undone, NoneInTheWay, QuietRollback;
    SaveEffect(t, Index(client), Index(server), ops);
    assert Keyed(Index(client)) by { ManifestKeyed(client); }
    var staged := Staged(payload, Index(Transfer(Index(client), ops)), true);
    var s := Save(t, Index(server), ops);
    FreshIffKept(t, ops);
    if staged.Some? && !s.Impossible? {
      SendApplyEffect(t, Index(client), Index(server), ops, staged.value, f);
      var w := SendApply(t, staged.value, Index(client), ops, f).0;
      RollbackWithout(w, ops, f);
      if s.Kept? {
        UnreadableArchive(w, s.archive, ops, f);
        if Extract(s.archive).Some? {
          PlannedRollback(t, w, Index(client), Index(server), ops, s.archive, f);
          RolledBackIff(t, w, Rollback(w, Some(s.archive), ops, f).0, ops);
        }
      }
    }
  }

  lemma RollbackWithout(w: Tree, ops: seq<Op>, f: Faults)
    ensures Rollback(w, None, ops, f) == (w, true)
  {
  }

  lemma UnreadableArchive(w: Tree, a: Archive, ops: seq<Op>, f: Faults)
    ensures Extract(a).None? ==> Rollback(w, Some(a), ops, f) == (w, false)
  {
    hide Extract;
  }

  lemma PlannedRollback(t: Tree, u: Tree, client: Files, server: Files, ops: seq<Op>, a: Archive, f: Faults)
    requires SendPlanned(t, client, server, ops)
    requires Confined(t, u, Paths(ops)) && QuietRollback(f)
    requires a.entries == Meta(server, ops) && Extract(a).Some?
    requires forall p :: p in Affected(ops) ==> p in t && p in Extract(a).value && Extract(a).value[p] == t[p]
    ensures var (v, ok) := Rollback(u, Some(a), ops, f); RolledTo(t, u, v, ops) && (ok <==> NoneInTheWay(u, ops))
  {
    hide Extract, Rollback, Confined, RolledTo, NoneInTheWay, Affected, Leaves, AddedPaths, Meta, PrefixFree,
      ServerAccurate, WellFormed;
    SendOps(t, client, server, ops);
    RollbackEffect(t, u, server, ops, a, f);
  }

  /** The same faults before the rollback and none in it. */
  function Calm(f: Faults): Faults { f.(opens := true, reUp := [], reRm := []) }

  /** A rollback that reports success met no fault. */
  lemma RollbackFaultsShow(t: Tree, a: Option<Archive>, ops: seq<Op>, f: Faults)
    ensures Rollback(t, a, ops, f).1 ==> Rollback(t, a, ops, f) == Rollback(t, a, ops, Calm(f))
  {
    hide Extract, UploadAll, RmAll, PathsOf, StagedEntries, Faultless;
    if a.Some? && Extract(a.value).Some? {
      var x := Extract(a.value).value;
      var es := StagedEntries(x, a.value.entries);
      UploadFaultsShow(t, x, es, f.reUp);
      RmFaultsShow(UploadAll(t, x, es, f.reUp).0, PathsOf(ops, Added), f.reRm);
    }
  }

  /** Whatever fails in it, a rollback changes only paths of the plan. */
  lemma RollbackConfined(t: Tree, u: Tree, client: Files, server: Files, ops: seq<Op>, a: Archive, f: Faults)
    requires SendPlanned(t, client, server, ops) && Confined(t, u, Paths(ops)) && a.entries == Meta(server, ops)
    ensures Confined(t, Rollback(u, Some(a), ops, f).0, Paths(ops))
  {
    hide Extract, UploadAll, RmAll, PathsOf, StagedEntries, Meta, Confined, Separate, StrictlySorted, DistinctOps,
      NoNewDirs, Frontier, AddedPaths, Affected, Listed, Hashed, KindOf, SameOff, Ascending, SavesLink, PrefixFree,
      ServerAccurate, WellFormed;
    SendOps(t, client, server, ops);
    OpSets(ops);
    if Extract(a).Some? {
      var x := Extract(a).value;
      var es := StagedEntries(x, a.entries);
      StagedEntriesOf(t, server, ops, x);
      var _ := UploadEffect(t, u, Paths(ops), x, es, f.reUp);
      assert StrictlySorted(ops);
      AddedInOrder(ops);
      RmAllEffect(t, UploadAll(u, x, es, f.reUp).0, Paths(ops), PathsOf(ops, Added), f.reRm);
    }
  }

  /** Whatever fails, in the apply or in the rollback, an upload changes only paths of the plan; and unless it ends in a
      rollback that is reported as failed, it ends as if the rollback had met no fault, which is how SendRollsBackIff
      describes it. */
  lemma SendUnderFaults(t: Tree, client: Manifest, server: Manifest, ops: seq<Op>, payload: seq<TarMember>, f: Faults,
                        git: Tree -> Option<seq<Path>>)
    requires SendPlanned(t, Index(client), Index(server), ops)
    ensures var (v, end) := Uploaded(t, client, server, ops, payload, f, git);
            && Confined(t, v, Paths(ops))
            && (end != TakenBack(false) ==> (v, end) == Uploaded(t, client, server, ops, payload, Calm(f), git))
            && (end == TakenBack(false) ==> Uploaded(t, client, server, ops, payload, Calm(f), git).1.TakenBack?)
  {
    hide Staged, Save, SendPlanned, Confined, SavesLink, SavesAbsoluteLink, OnlyAdds, Index, Transfer, ContainerFiles,
      Matches, Extract, Affected, UploadAll, RmAll, PathsOf, Rollback;
    SaveEffect(t, Index(client), Index(server), ops);
    assert Keyed(Index(client)) by { ManifestKeyed(client); }
    assert Confined(t, t, Paths(ops)) by { SendSelfConfined(t, Index(client), Index(server), ops); }
    var staged := Staged(payload, Index(Transfer(Index(client), ops)), true);
    var s := Save(t, Index(server), ops);
    if staged.Some? && !s.Impossible? {
      SendApplyEffect(t, Index(client), Index(server), ops, staged.value, f);
      var w := SendApply(t, staged.value, Index(client), ops, f).0;
      var a := if s.Kept? then Some(s.archive) else None;
      RollbackFaultsShow(w, a, ops, f);
      RollbackWithout(w, ops, f);
      if s.Kept? {
        RollbackConfined(t, w, Index(client), Index(server), ops, s.archive, f);
      }
    }
  }

  lemma SendSelfConfined(t: Tree, client: Files, server: Files, ops: seq<Op>)
    requires SendPlanned(t, client, server, ops)
    ensures Confined(t, t, Paths(ops))
  {
    hide Confined, Listed, Hashed;
    SendOps(t, client, server, ops);
  }

  // ---- Success

  /** Success means that no upload and no removal failed, and that the covered files of the container are the laptop's
      manifest, path for path. */
  lemma SentMeansPlan(t: Tree, client: Manifest, server: Manifest, ops: seq<Op>, payload: seq<TarMember>, f: Faults,
                      git: Tree -> Option<seq<Path>>)
    requires Uploaded(t, client, server, ops, payload, f, git).1 == Sent
    ensures var v := Uploaded(t, client, server, ops, payload, f, git).0;
            && git(v).Some?
            && (forall p :: p in Index(client) <==> p in git(v).value && IsLeaf(v, p))
            && (forall p :: p in Index(client) ==> p in v && SameContent(Index(client)[p], ContainerEntry(p, v[p])))
            && Faultless(f.up, |Transfer(Index(client), ops)|) && Faultless(f.rm, |PathsOf(ops, Deleted)|)
  {
    hide Transfer, PathsOf, Faultless, Uploaded, ContainerEntry, SameContent, ContainerFiles, Index, IsLeaf;
    var v := Uploaded(t, client, server, ops, payload, f, git).0;
    SentIsMatched(t, client, server, ops, payload, f, git);
    GotFiles(v, git(v));
  }

  lemma SentIsMatched(t: Tree, client: Manifest, server: Manifest, ops: seq<Op>, payload: seq<TarMember>, f: Faults,
                      git: Tree -> Option<seq<Path>>)
    requires Uploaded(t, client, server, ops, payload, f, git).1 == Sent
    ensures var v := Uploaded(t, client, server, ops, payload, f, git).0;
            && ContainerFiles(v, git(v)).Some? && Matches(Index(client), ContainerFiles(v, git(v)).value)
            && Faultless(f.up, |Transfer(Index(client), ops)|) && Faultless(f.rm, |PathsOf(ops, Deleted)|)
  {
    hide Staged, Save, UploadAll, RmAll, PathsOf, Faultless, Rollback, ContainerFiles, Matches, Index, Transfer;
    var staged := Staged(payload, Index(Transfer(Index(client), ops)), true);
    assert staged.Some? && !Save(t, Index(server), ops).Impossible?;
    var (u, ok) := SendApply(t, staged.value, Index(client), ops, f);
    assert ok && ContainerFiles(u, git(u)).Some? && Matches(Index(client), ContainerFiles(u, git(u)).value);
    UploadFaultsShow(t, staged.value, Transfer(Index(client), ops), f.up);
    RmFaultsShow(UploadAll(t, staged.value, Transfer(Index(client), ops), f.up).0, PathsOf(ops, Deleted), f.rm);
  }

  lemma {:induction false} UploadFaultsShow(t: Tree, staged: Tree, es: Manifest, faults: seq<Fault>)
    ensures UploadAll(t, staged, es, faults).1 ==> Faultless(faults, |es|)
    ensures Faultless(faults, |es|) ==> UploadAll(t, staged, es, faults) == UploadAll(t, staged, es, [])
  {
    hide UploadOne;
    if |es| > 0 {
      var n := |es| - 1;
      UploadFaultsShow(t, staged, es[..n], faults);
      FaultyUploadFails(UploadAll(t, staged, es[..n], faults).0, staged, es[n], FaultAt(faults, n));
    }
  }

  lemma FaultyUploadFails(t: Tree, staged: Tree, e: Entry, f: Fault)
    ensures f != NoFault ==> !UploadOne(t, staged, e, f).1
  {
    hide Remove, CopyEntry, MkdirParents;
  }

  lemma {:induction false} RmFaultsShow(t: Tree, ps: seq<Path>, faults: seq<Fault>)
    ensures RmAll(t, ps, faults).1 ==> Faultless(faults, |ps|)
    ensures Faultless(faults, |ps|) ==> RmAll(t, ps, faults) == RmAll(t, ps, [])
  {
    if |ps| > 0 {
      RmFaultsShow(t, ps[..|ps| - 1], faults);
    }
  }

  lemma GotFiles(u: Tree, listed: Option<seq<Path>>)
    requires ContainerFiles(u, listed).Some?
    ensures listed.Some?
    ensures forall p :: p in ContainerFiles(u, listed).value <==> p in listed.value && IsLeaf(u, p)
    ensures forall p :: p in ContainerFiles(u, listed).value ==>
              p in u && ContainerFiles(u, listed).value[p] == ContainerEntry(p, u[p])
  {
    hide ContainerEntry, ValidPath;
    EmittedAreLeaves(u, listed.value);
    var kept := Emitted(u, listed.value);
    forall p ensures p in PathSet(kept) <==> p in kept {}
  }

  /** No file or link is listed twice. */
  predicate EmittedOnce(u: Tree, listed: seq<Path>) {
    forall i, j :: 0 <= i < j < |listed| && listed[i] == listed[j] ==> !IsLeaf(u, listed[i])
  }

  lemma {:induction false} EmittedRepeats(u: Tree, listed: seq<Path>)
    ensures NoRepeats(Emitted(u, listed)) <==> EmittedOnce(u, listed)
  {
    hide IsLeaf;
    if |listed| > 0 {
      var n := |listed| - 1;
      var rest := listed[..n];
      EmittedRepeats(u, rest);
      EmittedAreLeaves(u, rest);
      EmittedOnceSnoc(u, listed);
      if IsLeaf(u, listed[n]) {
        SnocRepeats(Emitted(u, rest), listed[n]);
      } else {
        assert Emitted(u, listed) == Emitted(u, rest);
      }
    }
  }

  lemma EmittedOnceSnoc(u: Tree, listed: seq<Path>)
    requires |listed| > 0
    ensures var rest, p := listed[..|listed| - 1], listed[|listed| - 1];
            EmittedOnce(u, listed) <==> EmittedOnce(u, rest) && (IsLeaf(u, p) ==> p !in rest)
  {
    hide IsLeaf;
    var n := |listed| - 1;
    var rest := listed[..n];
    assert forall i :: 0 <= i < n ==> rest[i] == listed[i] && listed[i] in rest;
  }

  /** The container's manifest is taken exactly when git lists, no file or link twice, and none under an invalid
      path. */
  lemma ListedIff(u: Tree, listed: Option<seq<Path>>)
    ensures ContainerFiles(u, listed).Some? <==>
              listed.Some? && EmittedOnce(u, listed.value)
              && forall p :: p in listed.value && IsLeaf(u, p) ==> ValidPath(p)
  {
    hide ValidPath, IsLeaf, NoRepeats, EmittedOnce;
    if listed.Some? {
      EmittedRepeats(u, listed.value);
      EmittedAreLeaves(u, listed.value);
    }
  }

  /** git lists exactly the laptop's paths, once each. */
  ghost predicate ListsAll(u: Tree, listed: Option<seq<Path>>, client: Files) {
    && listed.Some? && EmittedOnce(u, listed.value)
    && (forall p :: p in client <==> p in listed.value && IsLeaf(u, p))
    && forall p :: p in client ==> ValidPath(p)
  }

  /** The hash of something that does not end in a newline, as a laptop takes it of a link. */
  predicate Bare(h: Hash) { |h.of| == 0 || h.of[|h.of| - 1] != '\n' }

  lemma BareDiffers(p: Path, e: Entry, n: Node)
    requires e.kind == Symlink && Bare(e.hash)
    ensures !SameContent(e, ContainerEntry(p, n))
  {
    if n.Link? {
      assert (n.target + "\n")[|n.target|] == '\n';
    }
  }

  /** While the laptop's folder holds a link, changed or not, no upload succeeds, whatever is sent and whatever git
      lists. */
  lemma LinkIsNeverSent(t: Tree, client: Manifest, server: Manifest, ops: seq<Op>, payload: seq<TarMember>, f: Faults,
                        git: Tree -> Option<seq<Path>>, p: Path)
    requires p in Index(client) && Index(client)[p].kind == Symlink && Bare(Index(client)[p].hash)
    ensures Uploaded(t, client, server, ops, payload, f, git).1 != Sent
  {
    hide Uploaded, SameContent, ContainerEntry;
    if Uploaded(t, client, server, ops, payload, f, git).1 == Sent {
      SentMeansPlan(t, client, server, ops, payload, f, git);
      BareDiffers(p, Index(client)[p], Uploaded(t, client, server, ops, payload, f, git).0[p]);
    }
  }

  /** Without a fault the apply puts every incoming entry in place and takes every deleted path away. */
  lemma SendApplyClean(t: Tree, client: Files, server: Files, ops: seq<Op>, staged: Tree, f: Faults)
    requires SendPlanned(t, client, server, ops) && Keyed(client) && StagedFor(staged, client, ops)
               && f.up == f.rm == []
    ensures var (u, ok) := SendApply(t, staged, client, ops, f);
            && ok && Confined(t, u, Paths(ops))
            && forall p :: p in Incoming(ops) ==>
                p in client && p in staged && IsLeaf(u, p) && u[p] == Copied(staged[p], client[p].mode)
  {
    hide UploadAll, RmAll, PathsOf, Transfer, Confined, Separate, Tidy, StrictlySorted, DistinctOps, NoNewDirs,
      Frontier, KindOf, Incoming, AddedPaths, Affected, ServerAccurate, PrefixFree, WellFormed, Listed, Hashed,
      SavesLink, Change, With;
    SendOps(t, client, server, ops);
    var es := Transfer(client, ops);
    OpSets(ops);
    assert forall p :: p in Incoming(ops) ==> p in client by { IncomingInClient(client, ops); }
    TransferSorted(client, ops);
    TransferStaged(client, ops, staged);
    var _ := UploadEffect(t, t, Paths(ops), staged, es, []);
    UploadClean(t, t, Paths(ops), staged, es);
    var a := UploadAll(t, staged, es, []).0;
    var rs := PathsOf(ops, Deleted);
    PathsOfSorted(ops, Deleted);
    DeletedStand(t, a, server, ops, EntrySet(es));
    NoDirsInTheWay(a, rs);
    var k := RmUntil(t, a, Paths(ops), rs);
    assert rs[..|rs|] == rs;
    var u := RmAll(a, rs, []).0;
    forall p | p in Incoming(ops)
      ensures p in client && p in staged && IsLeaf(u, p) && u[p] == Copied(staged[p], client[p].mode)
    {
      var i :| 0 <= i < |es| && es[i].path == p;
      assert es[i] in es && es[i] == client[p];
      assert p !in PathSet(rs) by { Apart(ops); }
    }
  }

  lemma Apart(ops: seq<Op>)
    requires DistinctOps(ops)
    ensures Incoming(ops) !! With(ops, Deleted)
  {
  }

  lemma TransferStaged(client: Files, ops: seq<Op>, staged: Tree)
    requires Keyed(client) && StagedFor(staged, client, ops)
    ensures forall e :: e in Transfer(client, ops) ==>
              e.path in client && client[e.path] == e && e.path in staged && KindOf(staged[e.path], e.kind)
  {
    hide KindOf;
    TransferMembers(client, ops);
    forall e | e in Transfer(client, ops)
      ensures e.path in client && client[e.path] == e && e.path in staged && KindOf(staged[e.path], e.kind)
    {
      var i :| 0 <= i < |ops| && ops[i].action != Deleted && ops[i].path in client && client[ops[i].path] == e;
      assert ops[i] in ops;
    }
  }

  /** Deleted paths are still the files they were when their turn comes. */
  lemma DeletedStand(t: Tree, a: Tree, server: Files, ops: seq<Op>, ps: set<Path>)
    requires Listed(t, server, ops) && DistinctOps(ops) && SameOff(t, a, ps) && ps == Incoming(ops)
    ensures forall p :: p in With(ops, Deleted) ==> IsLeaf(a, p)
  {
    hide KindAndMode, ValidPath;
    Apart(ops);
    forall p | p in With(ops, Deleted) ensures IsLeaf(a, p) {
      assert SameAt(t, a, p);
    }
  }

  lemma NoDirsInTheWay(a: Tree, rs: seq<Path>)
    requires Ascending(rs) && forall p :: p in PathSet(rs) ==> IsLeaf(a, p)
    ensures NoRepeats(rs) && forall i :: 0 <= i < |rs| ==> !(rs[i] in a && a[rs[i]].Dir?)
  {
    hide TextLe;
    assert forall i :: 0 <= i < |rs| ==> rs[i] in PathSet(rs);
  }

  /** Where an upload that meets no fault matches the laptop's manifest: at every file, and at no link. */
  lemma CleanUploadMatches(t: Tree, client: Files, server: Files, ops: seq<Op>, staged: Tree, f: Faults, p: Path)
    requires SendPlanned(t, client, server, ops) && Keyed(client) && StagedFor(staged, client, ops)
               && f.up == f.rm == []
    requires forall op :: op in ops && op.action != Deleted && client[op.path].kind == RegularFile ==>
               HashOf(staged[op.path]) == client[op.path].hash
    requires p in client && client[p].kind == RegularFile
    ensures var u := SendApply(t, staged, client, ops, f).0;
            IsLeaf(u, p) && SameContent(client[p], ContainerEntry(p, u[p]))
  {
    hide SendApply, PrefixFree, WellFormed, ValidPath, StrictlySorted, Separate, DistinctOps;
    SendApplyClean(t, client, server, ops, staged, f);
    var u := SendApply(t, staged, client, ops, f).0;
    if Change(client, server, p).Some? {
      var op := Op(p, Change(client, server, p).value);
      assert op in ops;
      var i :| 0 <= i < |ops| && ops[i] == op;
      assert p in Incoming(ops);
    } else {
      UntouchedLeaf(t, u, client, server, ops, p);
    }
  }

  /** A staged upload that meets no fault, with git listing exactly the laptop's paths afterwards, succeeds if and only
      if no affected link is absolute and the laptop's folder holds no link. */
  lemma CleanUploadIff(t: Tree, client: Manifest, server: Manifest, ops: seq<Op>, payload: seq<TarMember>, f: Faults,
                       git: Tree -> Option<seq<Path>>)
    requires SendPlanned(t, Index(client), Index(server), ops) && f.saves && f.up == f.rm == []
    requires Staged(payload, Index(Transfer(Index(client), ops)), true).Some?
    requires forall p :: p in Index(client) && Index(client)[p].kind == Symlink ==> Bare(Index(client)[p].hash)
    requires var u := SendApply(t, Staged(payload, Index(Transfer(Index(client), ops)), true).value, Index(client),
               ops, f).0;
             ListsAll(u, git(u), Index(client))
    ensures Uploaded(t, client, server, ops, payload, f, git).1 == Sent
            <==> !SavesAbsoluteLink(t, ops) && forall p :: p in Index(client) ==> Index(client)[p].kind == RegularFile
  {
    hide Staged, Save, SendApply, Rollback, SendPlanned, SavesLink, SavesAbsoluteLink, OnlyAdds, Index, Transfer,
      ContainerFiles, Extract, Affected, Confined, StagedFor, SameContent, ContainerEntry, Incoming, Leaves;
    var want := Index(client);
    SaveEffect(t, want, Index(server), ops);
    ManifestKeyed(client);
    SendIncoming(t, want, Index(server), ops);
    StagedIsPlanned(payload, want, ops);
    var staged := Staged(payload, Index(Transfer(want, ops)), true).value;
    SendApplyClean(t, want, Index(server), ops, staged, f);
    var u := SendApply(t, staged, want, ops, f).0;
    ListedIff(u, git(u));
    var got := ContainerFiles(u, git(u)).value;
    GotFiles(u, git(u));
    forall p | p in want
      ensures p in got && (SameContent(want[p], got[p]) <==> want[p].kind == RegularFile)
    {
      if want[p].kind == RegularFile {
        CleanUploadMatches(t, want, Index(server), ops, staged, f, p);
      } else {
        BareDiffers(p, want[p], u[p]);
      }
    }
  }

  lemma SendIncoming(t: Tree, client: Files, server: Files, ops: seq<Op>)
    requires SendPlanned(t, client, server, ops)
    ensures Separate(Paths(ops)) && forall op :: op in ops && op.action != Deleted ==> op.path in client
  {
    hide Listed, Hashed, SavesLink, Confined, ServerAccurate, IsDiff, DistinctOps, Separate;
    SendOps(t, client, server, ops);
  }
}
