/** What an upload saves of its target and what its steps change (service.go and container.go in
    server/internal/sync): the archive of the affected paths, which leaves and directories an upload stopped
    anywhere has touched, and what removing paths in order takes away. Used by SyncRollback, where the results
    about a whole Send are. */
module SyncUpload {
  import opened Sorting
  import opened SyncBackup
  import opened SyncFolder
  import opened SyncManifest
  import opened SyncNesting
  import opened SyncReceive
  import opened SyncRestore
  import opened SyncSend
  import opened Wrappers

  // ---- Under which conditions

  /** The server's manifest was taken of this tree. */
  predicate ServerAccurate(t: Tree, server: Files) {
    forall p :: p in server ==> IsLeaf(t, p) && ValidPath(p) && server[p] == ContainerEntry(p, t[p])
  }

  ghost predicate SendPlanned(t: Tree, client: Files, server: Files, ops: seq<Op>) {
    WellFormed(t) && ServerAccurate(t, server) && IsDiff(ops, client, server) && PrefixFree(t, ops)
  }

  /** The plan overwrites or deletes a link. */
  predicate SavesLink(t: Tree, ops: seq<Op>) {
    exists i :: 0 <= i < |ops| && ops[i].action != Added && ops[i].path in t && t[ops[i].path].Link?
  }

  predicate OnlyAdds(ops: seq<Op>) { forall i :: 0 <= i < |ops| ==> ops[i].action == Added }

  lemma SendOps(t: Tree, client: Files, server: Files, ops: seq<Op>)
    requires SendPlanned(t, client, server, ops)
    ensures DistinctOps(ops) && Separate(Paths(ops)) && WellFormed(t) && Confined(t, t, Paths(ops))
    ensures forall op :: op in ops && op.action != Added ==> op.path in server
    ensures forall op :: op in ops && op.action != Deleted ==> op.path in client
    ensures Listed(t, server, ops) && (Hashed(t, server, ops) <==> !SavesLink(t, ops))
  {
    forall op | op in ops
      ensures op.action != Added ==> op.path in server
      ensures op.action != Deleted ==> op.path in client
    {
      assert Change(client, server, op.path) == Some(op.action);
    }
    ServerListed(t, server, ops);
  }

  lemma ServerListed(t: Tree, server: Files, ops: seq<Op>)
    requires ServerAccurate(t, server) && forall op :: op in ops && op.action != Added ==> op.path in server
    ensures Listed(t, server, ops) && (Hashed(t, server, ops) <==> !SavesLink(t, ops))
  {
    hide ValidPath;
    forall i | 0 <= i < |ops| && ops[i].action != Added
      ensures ops[i].path in server && IsLeaf(t, ops[i].path) && KindAndMode(server[ops[i].path], t[ops[i].path])
      ensures HashOf(t[ops[i].path]) == server[ops[i].path].hash <==> !t[ops[i].path].Link?
    {
      assert ops[i] in ops;
      NewlineDiffers(t[ops[i].path]);
    }
  }

  /** The container hashes a link with a newline, and so never as the laptop or the archive reader does. */
  lemma NewlineDiffers(n: Node)
    requires !n.Dir?
    ensures HashOf(n) == ContainerHash(n) <==> !n.Link?
  {
    if n.Link? {
      assert |n.target + "\n"| != |n.target|;
    }
  }

  // ---- What is saved

  /** The paths that the plan overwrites or deletes. */
  function Affected(ops: seq<Op>): set<Path> { set i | 0 <= i < |ops| && ops[i].action != Added :: ops[i].path }

  predicate ListedAs(t: Tree, server: Files, p: Path) {
    p in server && server[p].path == p && ValidPath(p) && IsLeaf(t, p) && server[p] == ContainerEntry(p, t[p])
  }

  lemma AffectedListed(t: Tree, server: Files, ops: seq<Op>)
    requires ServerAccurate(t, server) && forall op :: op in ops && op.action != Added ==> op.path in server
    ensures forall p :: p in Affected(ops) ==> ListedAs(t, server, p)
    ensures Affected(ops) <= Paths(ops)
  {
    hide ValidPath;
    forall p | p in Affected(ops) ensures p in server {
      var i :| 0 <= i < |ops| && ops[i].action != Added && ops[i].path == p;
      assert ops[i] in ops;
    }
  }

  lemma AffectedStep(ops: seq<Op>)
    requires |ops| > 0
    ensures Affected(ops) == Affected(ops[..|ops| - 1])
              + (if ops[|ops| - 1].action != Added then {ops[|ops| - 1].path} else {})
    ensures DistinctOps(ops) ==> DistinctOps(ops[..|ops| - 1]) && ops[|ops| - 1].path !in Affected(ops[..|ops| - 1])
  {
    var rest := ops[..|ops| - 1];
    assert forall i :: 0 <= i < |rest| ==> rest[i] == ops[i];
  }

  /** The entries to save are those of the affected paths, each once. */
  lemma {:induction false} ExistingMembers(t: Tree, server: Files, ops: seq<Op>)
    requires DistinctOps(ops) && forall p :: p in Affected(ops) ==> ListedAs(t, server, p)
    ensures var es := Existing(server, ops);
            && DistinctPaths(es)
            && (forall e :: e in es ==> e.path in Affected(ops) && e.path in server && e == server[e.path])
            && (forall p :: p in Affected(ops) ==> p in server && server[p] in es)
  {
    hide ListedAs, DistinctOps;
    if |ops| > 0 {
      AffectedStep(ops);
      ExistingMembers(t, server, ops[..|ops| - 1]);
      forall p | p in Affected(ops) ensures p in server && server[p].path == p { ListedMeans(t, server, p); }
      var rest := Existing(server, ops[..|ops| - 1]);
      assert forall i :: 0 <= i < |rest| ==> rest[i] in rest;
    }
  }

  lemma ListedMeans(t: Tree, server: Files, p: Path)
    requires ListedAs(t, server, p)
    ensures p in server && server[p].path == p && ValidPath(p) && IsLeaf(t, p)
    ensures NodeFor(server[p], BodyOf(t[p])) == t[p]
    ensures Fits(server[p], BodyOf(t[p])) <==> !(t[p].Link? && IsAbs(t[p].target))
  {
    hide ValidPath, IsAbs;
  }

  /** With every entry a leaf of the tree, the container's tar carries each of them once, as it is. */
  lemma {:induction false} TarMembers(t: Tree, es: Manifest)
    requires forall e :: e in es ==> IsLeaf(t, e.path)
    ensures |ContainerTar(t, es)| == |es|
    ensures forall i :: 0 <= i < |es| ==>
              es[i].path in t && ContainerTar(t, es)[i] == TarMember(es[i].path, BodyOf(t[es[i].path]))
  {
    if |es| > 0 {
      assert es == es[..|es| - 1] + [es[|es| - 1]];
      TarMembers(t, es[..|es| - 1]);
    }
  }

  /** A tar that carries wanted paths only is staged alike, strictly or not. */
  lemma {:induction false} StrictOrNot(members: seq<TarMember>, want: Files)
    requires forall i :: 0 <= i < |members| ==> members[i].name in want
    ensures Stage(members, want, false) == Stage(members, want, true)
  {
    if |members| > 0 {
      StrictOrNot(members[..|members| - 1], want);
    }
  }

  /** An affected link that the staging will refuse. */
  lemma SavesAbsolute(t: Tree, ops: seq<Op>)
    ensures SavesAbsoluteLink(t, ops) <==> exists p :: p in Affected(ops) && p in t && t[p].Link? && IsAbs(t[p].target)
  {
    hide IsAbs;
    if SavesAbsoluteLink(t, ops) {
      var i :| 0 <= i < |ops| && ops[i].action != Added && ops[i].path in t && t[ops[i].path].Link?
          && IsAbs(t[ops[i].path].target);
      assert ops[i].path in Affected(ops);
    }
  }

  /** The tar of the affected paths is good unless it carries an absolute link. */
  lemma TarIsGood(t: Tree, server: Files, ops: seq<Op>)
    requires DistinctOps(ops) && forall p :: p in Affected(ops) ==> ListedAs(t, server, p)
    ensures var es := Existing(server, ops);
            var members, want := ContainerTar(t, es), Index(es);
            && want.Keys == Affected(ops) == Names(members)
            && (forall p :: p in want ==> p in server && want[p] == server[p] && want[p].path == p)
            && (forall i :: 0 <= i < |members| ==>
                  members[i].name in want && members[i].name in t && members[i].body == BodyOf(t[members[i].name]))
            && (Good(members, want) <==> !SavesAbsoluteLink(t, ops))
  {
    hide Fits, BodyOf, NodeFor, IsAbs, ListedAs, Index, Existing, DistinctOps, Affected, SavesAbsoluteLink, Good,
      ContainerTar;
    var es := Existing(server, ops);
    ExistingMembers(t, server, ops);
    WantOfExisting(t, server, ops);
    forall e | e in es ensures IsLeaf(t, e.path) { ListedMeans(t, server, e.path); }
    TarMembers(t, es);
    var members, want := ContainerTar(t, es), Index(es);
    forall i | 0 <= i < |members| ensures members[i].name in want {
      assert es[i] in es;
    }
    forall p | p in Affected(ops) ensures p in Names(members) {
      var j :| 0 <= j < |es| && es[j] == server[p];
      assert members[j].name == p by { ListedMeans(t, server, p); }
    }
    assert Names(members) <= want.Keys;
    GoodUnless(t, server, ops, members, want);
  }

  lemma WantOfExisting(t: Tree, server: Files, ops: seq<Op>)
    requires DistinctOps(ops) && forall p :: p in Affected(ops) ==> ListedAs(t, server, p)
    ensures var want := Index(Existing(server, ops));
            want.Keys == Affected(ops) && forall p :: p in want ==>
                p in server && want[p] == server[p] && want[p].path == p
  {
    hide ListedAs, Existing, DistinctOps, Affected;
    var es := Existing(server, ops);
    ExistingMembers(t, server, ops);
    IndexKeys(es);
    forall p | p in Affected(ops) ensures p in Index(es) {
      ListedMeans(t, server, p);
      var j :| 0 <= j < |es| && es[j] == server[p];
    }
    forall p | p in Index(es) ensures p in Affected(ops) && Index(es)[p] == server[p] && Index(es)[p].path == p {
      assert Index(es)[p] in es;
    }
  }

  lemma GoodUnless(t: Tree, server: Files, ops: seq<Op>, members: seq<TarMember>, want: Files)
    requires forall p :: p in Affected(ops) ==> ListedAs(t, server, p)
    requires want.Keys == Affected(ops) == Names(members) && forall p :: p in want ==>
               p in server && want[p] == server[p]
    requires forall i :: 0 <= i < |members| ==>
               members[i].name in want && members[i].name in t && members[i].body == BodyOf(t[members[i].name])
    requires forall i, j :: 0 <= i < j < |members| ==> members[i].name != members[j].name
    ensures Good(members, want) <==> !SavesAbsoluteLink(t, ops)
  {
    hide Fits, BodyOf, IsAbs, ListedAs, NodeFor, Affected, SavesAbsoluteLink;
    SavesAbsolute(t, ops);
    forall p | p in Affected(ops)
      ensures p in t && p in server && ValidPath(p)
                && (Fits(server[p], BodyOf(t[p])) <==> !(t[p].Link? && IsAbs(t[p].target)))
    {
      ListedMeans(t, server, p);
    }
    if p :| p in Affected(ops) && p in t && t[p].Link? && IsAbs(t[p].target) {
      var i :| 0 <= i < |members| && members[i].name == p;
      assert !Fits(want[members[i].name], members[i].body);
    }
  }

  /** What is staged of the target before the apply: refused if an affected link is absolute, and otherwise the old
      node of every affected path. */
  lemma PreStaged(t: Tree, server: Files, ops: seq<Op>)
    requires DistinctOps(ops) && Separate(Paths(ops)) && Affected(ops) <= Paths(ops)
    requires forall p :: p in Affected(ops) ==> ListedAs(t, server, p)
    ensures var es := Existing(server, ops);
            var pre := Staged(ContainerTar(t, es), Index(es), false);
            && (pre.None? <==> SavesAbsoluteLink(t, ops))
            && (pre.Some? ==> forall p :: p in Affected(ops) ==> p in t && p in pre.value && pre.value[p] == t[p])
  {
    hide Stage, Separate, Existing, Index, ContainerTar, Leaves, DistinctOps, IsAbs, Good, ListedAs, Affected,
      SavesAbsoluteLink;
    var es := Existing(server, ops);
    TarIsGood(t, server, ops);
    var want, members := Index(es), ContainerTar(t, es);
    SeparateSubset(Paths(ops), want.Keys);
    StrictOrNot(members, want);
    StrictStagingExact(members, want);
    var pre := Staged(members, want, false);
    if pre.Some? {
      forall p | p in Affected(ops) ensures p in t && p in pre.value && pre.value[p] == t[p] {
        var j :| 0 <= j < |members| && members[j].name == p;
        assert Holds(Leaves(pre.value), want, members[j]);
        ListedMeans(t, server, p);
        LeafOf(pre.value, p);
      }
    }
  }

  lemma LeafOf(t: Tree, p: Path)
    ensures p in Leaves(t) <==> IsLeaf(t, p)
    ensures p in Leaves(t) ==> Leaves(t)[p] == t[p]
  {
  }

  lemma AgreeingIsListed(t: Tree, pre: Tree, server: Files, ops: seq<Op>)
    requires Listed(t, server, ops) && forall p :: p in Affected(ops) ==> p in t && p in pre && pre[p] == t[p]
    ensures Listed(pre, server, ops)
    ensures Hashed(pre, server, ops) <==> Hashed(t, server, ops)
    ensures SavesAbsoluteLink(pre, ops) <==> SavesAbsoluteLink(t, ops)
  {
    hide ValidPath, KindAndMode, SavesAbsoluteLink;
    forall i | 0 <= i < |ops| && ops[i].action != Added ensures ops[i].path in Affected(ops) {}
    SavesAbsolute(t, ops);
    SavesAbsolute(pre, ops);
  }

  /** What the backup of the target comes to: nothing for a plan that only adds, a refusal for an absolute link, and
      otherwise an archive that can be read back if and only if it holds no link at all. */
  lemma SaveEffect(t: Tree, client: Files, server: Files, ops: seq<Op>)
    requires SendPlanned(t, client, server, ops)
    ensures var s := Save(t, server, ops);
            && (s.Nothing? <==> OnlyAdds(ops))
            && (s.Impossible? <==> SavesAbsoluteLink(t, ops))
            && (s.Kept? ==>
                  && s.archive.entries == Meta(server, ops)
                  && (Extract(s.archive).Some? <==> !SavesLink(t, ops))
                  && (Extract(s.archive).Some? ==>
                        forall p :: p in Affected(ops) ==>
                            p in t && p in Extract(s.archive).value && Extract(s.archive).value[p] == t[p]))
  {
    hide Extract, Staged, Existing, ContainerTar, IsDiff, Listed, Hashed, Separate, DistinctOps, SavesAbsoluteLink,
      SavesLink, Meta, Members, ListedAs, ServerAccurate, PrefixFree, WellFormed, Confined;
    SendOps(t, client, server, ops);
    AffectedListed(t, server, ops);
    PreStaged(t, server, ops);
    ExistingMembers(t, server, ops);
    OnlyAddsMeans(ops);
    SavesAbsolute(t, ops);
    var es := Existing(server, ops);
    assert |es| == 0 <==> Affected(ops) == {} by {
      if |es| > 0 {
        assert es[0] in es;
      }
      assert forall p :: p in Affected(ops) ==> server[p] in es;
    }
    var pre := Staged(ContainerTar(t, es), Index(es), false);
    if |es| > 0 && pre.Some? {
      ArchiveEffect(t, pre.value, server, ops);
    }
  }

  lemma OnlyAddsMeans(ops: seq<Op>)
    ensures OnlyAdds(ops) <==> Affected(ops) == {}
  {
    if !OnlyAdds(ops) {
      var i :| 0 <= i < |ops| && ops[i].action != Added;
      assert ops[i].path in Affected(ops);
    }
  }

  lemma ArchiveEffect(t: Tree, pre: Tree, server: Files, ops: seq<Op>)
    requires DistinctOps(ops) && Separate(Paths(ops)) && Listed(t, server, ops)
    requires forall p :: p in Affected(ops) ==> p in t && p in pre && pre[p] == t[p]
    requires !SavesAbsoluteLink(t, ops)
    ensures var a := Backup(pre, server, ops);
            && a.Some? && a.value.entries == Meta(server, ops)
            && (Extract(a.value).Some? <==> Hashed(t, server, ops))
            && (Extract(a.value).Some? ==>
                  forall p :: p in Affected(ops) ==> p in Extract(a.value).value && Extract(a.value).value[p] == t[p])
  {
    hide Extract, Listed, Hashed, Separate, DistinctOps, SavesAbsoluteLink, Meta, Members, Leaves;
    AgreeingIsListed(t, pre, server, ops);
    ExtractGivesOldNodes(pre, server, ops);
    OldNodesKeys(pre, server, ops);
    var x := Extract(Backup(pre, server, ops).value);
    if x.Some? {
      forall p | p in Affected(ops) ensures p in x.value && x.value[p] == t[p] {
        var i :| 0 <= i < |ops| && ops[i].action != Added && ops[i].path == p;
        LeafOf(x.value, p);
      }
    }
  }

  // ---- What uploads and removals change

  predicate SameAt(t: Tree, u: Tree, q: Path) {
    (IsLeaf(u, q) <==> IsLeaf(t, q)) && (IsLeaf(t, q) ==> q in u && u[q] == t[q])
  }

  ghost predicate SameOff(t: Tree, u: Tree, ps: set<Path>) { forall q :: q !in ps ==> SameAt(t, u, q) }

  predicate NoNewDirs(t: Tree, u: Tree, ps: set<Path>) {
    forall q :: q in ps && q in u && u[q].Dir? ==> q in t && t[q].Dir?
  }

  lemma LeavesSameOff(t: Tree, u: Tree, ps: set<Path>)
    requires Leaves(u) - ps == Leaves(t) - ps
    ensures SameOff(t, u, ps)
  {
    forall q | q !in ps ensures SameAt(t, u, q) {
      assert IsLeaf(u, q) <==> q in Leaves(u) - ps;
      assert IsLeaf(t, q) <==> q in Leaves(t) - ps;
      assert q in Leaves(t) - ps ==> (Leaves(t) - ps)[q] == (Leaves(u) - ps)[q];
    }
  }

  lemma ClearNoDirs(t: Tree, p: Path, ps: set<Path>)
    requires Separate(ps) && p in ps
    ensures NoNewDirs(t, MkdirParents(t, p).0, ps) && NoNewDirs(t, Remove(MkdirParents(t, p).0, p).0, ps)
  {
    hide Blocked, Populated;
  }

  lemma CopyNoDirs(t: Tree, staged: Tree, p: Path, kind: Kind, mode: nat, ps: set<Path>)
    requires Separate(ps) && p in ps
    ensures NoNewDirs(t, CopyEntry(t, p, staged, kind, mode).0, ps)
  {
    hide MkdirParents, Remove, Separate;
    ClearNoDirs(t, p, ps);
  }

  /** The ways in which one member of an upload can end. */
  lemma UploadOneEffect(t0: Tree, t: Tree, ps: set<Path>, staged: Tree, e: Entry, f: Fault)
    requires Separate(ps) && e.path in ps && Confined(t0, t, ps)
    ensures var (u, ok) := UploadOne(t, staged, e, f);
            && Confined(t0, u, ps) && SameOff(t, u, {e.path}) && NoNewDirs(t, u, ps)
            && (f == NoFault && e.path in staged && KindOf(staged[e.path], e.kind) ==> ok)
            && (ok ==> IsLeaf(u, e.path) && e.path in staged && u[e.path] == Copied(staged[e.path], e.mode))
  {
    hide Confined, Separate, Remove, CopyEntry, MkdirParents, SameOff, Leaves, Truncated;
    var p, u := e.path, UploadOne(t, staged, e, f).0;
    ApplyOneConfined(t0, t, staged, map[p := e], Op(p, Added), f, ps);
    LeafOf(u, p);
    match f
    case Refused => LeavesSameOff(t, u, {p});
    case Cleared =>
      ClearNoDirs(t, p, ps);
      RoomAt(t0, t, ps, p);
      ClearIsFlat(t, p);
      MinusTwice(Leaves(t), p, Dir);
      LeavesSameOff(t, u, {p});
    case HalfWritten(n) =>
      CopyNoDirs(t, Truncated(staged, p, n), p, e.kind, e.mode, ps);
      CopyConfined(t0, t, ps, p, Truncated(staged, p, n), e.kind, e.mode);
      MinusTwice(Leaves(t), p, if p in Truncated(staged, p, n) then Copied(Truncated(staged, p, n)[p], e.mode)
          else Dir);
      LeavesSameOff(t, u, {p});
    case NoFault =>
      CopyNoDirs(t, staged, p, e.kind, e.mode, ps);
      CopyConfined(t0, t, ps, p, staged, e.kind, e.mode);
      MinusTwice(Leaves(t), p, if p in staged then Copied(staged[p], e.mode) else Dir);
      LeavesSameOff(t, u, {p});
  }

  lemma RoomAt(t0: Tree, t: Tree, ps: set<Path>, p: Path)
    requires Confined(t0, t, ps) && p in ps
    ensures WellFormed(t) && Room(t, p)
  {
  }

  lemma MinusTwice(m: Tree, p: Path, n: Node)
    ensures (m - {p}) - {p} == m - {p} && m[p := n] - {p} == m - {p}
  {
  }

  /** The entry stands at its path as it was staged, with its recorded mode. */
  predicate InPlace(u: Tree, staged: Tree, e: Entry) {
    e.path in staged && IsLeaf(u, e.path) && u[e.path] == Copied(staged[e.path], e.mode)
  }

  /** An upload of `es` stopped at index `k`: before it every entry is in place, after it none was touched. */
  predicate Frontier(t: Tree, u: Tree, staged: Tree, es: Manifest, k: nat) {
    && k <= |es|
    && (forall j :: 0 <= j < k ==> InPlace(u, staged, es[j]))
    && (forall j :: k < j < |es| ==> SameAt(t, u, es[j].path))
  }

  function EntrySet(es: Manifest): set<Path> { set i | 0 <= i < |es| :: es[i].path }

  lemma EntrySetStep(es: Manifest)
    requires |es| > 0 && DistinctPaths(es)
    ensures var n := |es| - 1;
            EntrySet(es) == EntrySet(es[..n]) + {es[n].path} && es[n].path !in EntrySet(es[..n])
                && DistinctPaths(es[..n])
  {
    var rest := es[..|es| - 1];
    assert forall i :: 0 <= i < |rest| ==> rest[i] == es[i];
  }

  /** Whatever fails, an upload stops somewhere in the order of its entries and changes nothing else. */
  lemma {:induction false} UploadEffect(t0: Tree, t: Tree, ps: set<Path>, staged: Tree, es: Manifest,
                                        faults: seq<Fault>) returns (k: nat)
    requires Separate(ps) && EntrySet(es) <= ps && Confined(t0, t, ps) && DistinctPaths(es)
    ensures var (u, ok) := UploadAll(t, staged, es, faults);
            && Confined(t0, u, ps) && SameOff(t, u, EntrySet(es)) && NoNewDirs(t, u, ps)
            && Frontier(t, u, staged, es, k) && (ok ==> k == |es|)
  {
    hide Confined, Separate, UploadOne, SameAt, Frontier, NoNewDirs;
    k := 0;
    if |es| > 0 {
      var n := |es| - 1;
      EntrySetStep(es);
      k := UploadEffect(t0, t, ps, staged, es[..n], faults);
      var (a, ok) := UploadAll(t, staged, es[..n], faults);
      if ok {
        UploadOneEffect(t0, a, ps, staged, es[n], FaultAt(faults, n));
        var (u, done) := UploadOne(a, staged, es[n], FaultAt(faults, n));
        k := if done then n + 1 else n;
        forall q | q !in EntrySet(es) ensures SameAt(t, u, q) { SameTwice(t, a, u, q); }
        FrontierNext(t, a, u, staged, es, done);
        DirsTwice(t, a, u, ps);
      } else {
        FrontierStays(t, a, staged, es, k);
      }
    } else {
      SameSelf(t);
      NoFrontier(t, staged, es);
    }
  }

  lemma NoFrontier(t: Tree, staged: Tree, es: Manifest)
    requires |es| == 0
    ensures Frontier(t, t, staged, es, 0) && forall ps: set<Path> :: NoNewDirs(t, t, ps)
  {
  }

  lemma DirsTwice(a: Tree, b: Tree, c: Tree, ps: set<Path>)
    requires NoNewDirs(a, b, ps) && NoNewDirs(b, c, ps)
    ensures NoNewDirs(a, c, ps)
  {
  }

  lemma FrontierNext(t: Tree, a: Tree, u: Tree, staged: Tree, es: Manifest, done: bool)
    requires |es| > 0 && Frontier(t, a, staged, es[..|es| - 1], |es| - 1)
    requires SameOff(a, u, {es[|es| - 1].path}) && DistinctPaths(es)
    requires done ==> InPlace(u, staged, es[|es| - 1])
    ensures Frontier(t, u, staged, es, if done then |es| else |es| - 1)
  {
    hide SameAt;
    var n := |es| - 1;
    forall j | 0 <= j < n ensures InPlace(u, staged, es[j]) {
      assert InPlace(a, staged, es[..n][j]);
      SameLeaf(a, u, es[j].path);
    }
  }

  lemma FrontierStays(t: Tree, a: Tree, staged: Tree, es: Manifest, k: nat)
    requires |es| > 0 && DistinctPaths(es)
    requires Frontier(t, a, staged, es[..|es| - 1], k) && SameOff(t, a, EntrySet(es[..|es| - 1]))
    ensures Frontier(t, a, staged, es, k)
  {
    hide SameAt, InPlace;
    var n := |es| - 1;
    EntrySetStep(es);
    forall j | 0 <= j < k ensures InPlace(a, staged, es[j]) { assert es[..n][j] == es[j]; }
    forall j | k < j < |es| ensures SameAt(t, a, es[j].path) {
      assert j < n ==> es[..n][j] == es[j];
    }
  }

  lemma SameSelf(t: Tree)
    ensures forall q :: SameAt(t, t, q)
  {
  }

  lemma SameTwice(a: Tree, b: Tree, c: Tree, q: Path)
    requires SameAt(a, b, q) && SameAt(b, c, q)
    ensures SameAt(a, c, q)
  {
  }

  lemma SameLeaf(a: Tree, b: Tree, q: Path)
    requires SameAt(a, b, q)
    ensures (IsLeaf(a, q) <==> IsLeaf(b, q)) && (IsLeaf(a, q) ==> q in a && q in b && b[q] == a[q])
  {
  }

  /** Without a fault every entry of the staged kinds is put in place. */
  lemma {:induction false} UploadClean(t0: Tree, t: Tree, ps: set<Path>, staged: Tree, es: Manifest)
    requires Separate(ps) && EntrySet(es) <= ps && Confined(t0, t, ps) && DistinctPaths(es)
    requires forall e :: e in es ==> e.path in staged && KindOf(staged[e.path], e.kind)
    ensures var (u, ok) := UploadAll(t, staged, es, []);
            && ok && (forall e :: e in es ==> IsLeaf(u, e.path) && u[e.path] == Copied(staged[e.path], e.mode))
            && (forall q :: q in t && q !in EntrySet(es) ==> q in u && u[q] == t[q])
  {
    hide Confined, Separate, UploadOne, SameAt, IsLeaf;
    if |es| > 0 {
      var n := |es| - 1;
      assert es == es[..n] + [es[n]];
      EntrySetStep(es);
      UploadClean(t0, t, ps, staged, es[..n]);
      var _ := UploadEffect(t0, t, ps, staged, es[..n], []);
      var a := UploadAll(t, staged, es[..n], []).0;
      UploadOneEffect(t0, a, ps, staged, es[n], NoFault);
      UploadOneKeeps(t0, a, ps, staged, es[n]);
      var u := UploadOne(a, staged, es[n], NoFault).0;
      forall e | e in es[..n] ensures IsLeaf(u, e.path) && e.path in u && u[e.path] == Copied(staged[e.path], e.mode) {
        assert e.path in EntrySet(es[..n]);
        SameLeaf(a, u, e.path);
        LeafIsThere(a, e.path);
      }
      LeafIsThere(u, es[n].path);
    }
  }

  lemma UploadOneKeeps(t0: Tree, t: Tree, ps: set<Path>, staged: Tree, e: Entry)
    requires Confined(t0, t, ps)
    ensures Keeps(t, UploadOne(t, staged, e, NoFault).0, e.path)
  {
    hide CopyEntry, Roomy, Leaves, WellFormed, Keeps;
    CopyKeeps(t, e.path, staged, e.kind, e.mode);
  }

  lemma LeafIsThere(t: Tree, p: Path)
    ensures IsLeaf(t, p) ==> p in t && !t[p].Dir?
  {
  }

  lemma RmEffect(t0: Tree, t: Tree, ps: set<Path>, p: Path)
    requires Separate(ps) && p in ps && Confined(t0, t, ps)
    ensures var (u, ok) := RmForce(t, p);
            && Confined(t0, u, ps) && SameOff(t, u, {p}) && NoNewDirs(t, u, ps)
            && (if p in t && t[p].Dir? then !ok && u == t else ok && !IsLeaf(u, p) && p !in u)
            && (forall q :: q in t && q != p ==> q in u && u[q] == t[q])
  {
    hide Separate, Populated;
    assert !Blocked(t, p) by { RoomAt(t0, t, ps, p); }
    if IsLeaf(t, p) {
      RemoveConfined(t0, t, ps, p);
      RemoveIsLeaf(t, p);
    }
  }

  lemma RemoveIsLeaf(t: Tree, p: Path)
    requires !Blocked(t, p) && IsLeaf(t, p)
    ensures Remove(t, p).0 == t - {p}
  {
  }

  /** Removals, failing or not, take away leaves of their paths and nothing else. */
  lemma {:induction false} RmAllEffect(t0: Tree, t: Tree, ps: set<Path>, rs: seq<Path>, faults: seq<Fault>)
    requires Separate(ps) && PathSet(rs) <= ps && Confined(t0, t, ps)
    ensures var u := RmAll(t, rs, faults).0;
            Confined(t0, u, ps) && SameOff(t, u, PathSet(rs)) && NoNewDirs(t, u, ps)
  {
    hide Confined, Separate, RmForce, SameAt;
    if |rs| == 0 {
      SameSelf(t);
    } else {
      var n := |rs| - 1;
      PathSetStep(rs);
      RmAllEffect(t0, t, ps, rs[..n], faults);
      var a := RmAll(t, rs[..n], faults).0;
      RmEffect(t0, a, ps, rs[n]);
      var u := RmForce(a, rs[n]).0;
      forall q | q !in PathSet(rs) ensures SameAt(t, u, q) { SameTwice(t, a, u, q); }
    }
  }

  lemma PathSetStep(rs: seq<Path>)
    requires |rs| > 0
    ensures PathSet(rs) == PathSet(rs[..|rs| - 1]) + {rs[|rs| - 1]}
  {
    var rest := rs[..|rs| - 1];
    assert forall i :: 0 <= i < |rest| ==> rest[i] == rs[i];
  }

  /** Removing without a fault takes away every file up to the first directory, where it stops. */
  lemma {:induction false} RmUntil(t0: Tree, t: Tree, ps: set<Path>, rs: seq<Path>) returns (k: nat)
    requires Separate(ps) && PathSet(rs) <= ps && Confined(t0, t, ps) && NoRepeats(rs)
    ensures var (u, ok) := RmAll(t, rs, []);
            && Confined(t0, u, ps) && k <= |rs| && (ok <==> k == |rs|)
            && (forall i :: 0 <= i < k ==> !(rs[i] in t && t[rs[i]].Dir?) && !IsLeaf(u, rs[i]))
            && (k < |rs| ==> rs[k] in t && t[rs[k]].Dir?)
            && (forall q :: q in t && q !in rs[..k] ==> q in u && u[q] == t[q])
            && (forall q :: q in u ==> q in t && u[q] == t[q])
  {
    hide Confined, Separate, RmForce;
    k := 0;
    if |rs| > 0 {
      var n := |rs| - 1;
      PathSetStep(rs);
      k := RmUntil(t0, t, ps, rs[..n]);
      var (a, ok) := RmAll(t, rs[..n], []);
      assert rs[..n][..k] == rs[..k];
      assert forall i :: 0 <= i < n ==> rs[..n][i] == rs[i];
      if ok {
        assert rs[n] !in rs[..n];
        RmEffect(t0, a, ps, rs[n]);
        RmShrinks(a, rs[n]);
        if RmForce(a, rs[n]).1 {
          k := n + 1;
          assert rs[..n + 1] == rs;
        }
      }
    }
  }

  lemma RmShrinks(t: Tree, p: Path)
    ensures var u := RmForce(t, p).0; forall q :: q in u ==> q in t && u[q] == t[q]
  {
  }

  // ---- The order of the paths

  function Incoming(ops: seq<Op>): set<Path> { set i | 0 <= i < |ops| && ops[i].action != Deleted :: ops[i].path }

  function With(ops: seq<Op>, action: Action): set<Path> {
    set i | 0 <= i < |ops| && ops[i].action == action :: ops[i].path
  }

  lemma OpSets(ops: seq<Op>)
    ensures With(ops, Added) == AddedPaths(ops) <= Incoming(ops) <= Paths(ops)
    ensures Affected(ops) <= Paths(ops) && With(ops, Deleted) <= Affected(ops)
    ensures Paths(ops) == AddedPaths(ops) + Affected(ops)
    ensures DistinctOps(ops) ==> AddedPaths(ops) !! Affected(ops)
  {
  }

  lemma FrontSorted(ops: seq<Op>)
    requires |ops| > 0
    ensures var n := |ops| - 1;
            && (StrictlySorted(ops) ==> StrictlySorted(ops[..n]))
            && Incoming(ops) == Incoming(ops[..n]) + (if ops[n].action != Deleted then {ops[n].path} else {})
            && (forall a :: With(ops, a) == With(ops[..n], a) + (if ops[n].action == a then {ops[n].path} else {}))
            && (StrictlySorted(ops) ==> forall p :: p in Paths(ops[..n]) ==> TextLe(p, ops[n].path) && p != ops[n].path)
  {
    var n := |ops| - 1;
    var rest := ops[..n];
    assert forall i :: 0 <= i < n ==> rest[i] == ops[i];
  }

  ghost predicate Ascending(ps: seq<Path>) {
    forall i, j :: 0 <= i < j < |ps| ==> TextLe(ps[i], ps[j]) && ps[i] != ps[j]
  }

  lemma {:induction false} PathsOfSorted(ops: seq<Op>, action: Action)
    requires StrictlySorted(ops)
    ensures Ascending(PathsOf(ops, action)) && PathSet(PathsOf(ops, action)) == With(ops, action)
  {
    hide StrictlySorted, With, Incoming, TextLe;
    if |ops| > 0 {
      var n := |ops| - 1;
      FrontSorted(ops);
      PathsOfSorted(ops[..n], action);
      var rest := PathsOf(ops[..n], action);
      if ops[n].action == action {
        PathSetStep(rest + [ops[n].path]);
        assert (rest + [ops[n].path])[..|rest|] == rest;
        forall i | 0 <= i < |rest| ensures TextLe(rest[i], ops[n].path) && rest[i] != ops[n].path {
          WithIsPath(ops[..n], action, rest[i]);
        }
      } else {
        assert rest + [] == rest;
      }
    } else {
      assert With(ops, action) == {} by { NoneWith(ops, action); }
    }
  }

  lemma NoneWith(ops: seq<Op>, action: Action)
    requires |ops| == 0
    ensures With(ops, action) == {} && Incoming(ops) == {}
  {
  }

  lemma WithIsPath(ops: seq<Op>, action: Action, p: Path)
    ensures p in With(ops, action) ==> p in Paths(ops)
    ensures p in Incoming(ops) ==> p in Paths(ops)
  {
  }

  function NamesOf(es: Manifest): seq<Path> { seq(|es|, i requires 0 <= i < |es| => es[i].path) }

  lemma {:induction false} TransferSorted(client: Files, ops: seq<Op>)
    requires StrictlySorted(ops) && Keyed(client) && forall p :: p in Incoming(ops) ==> p in client
    ensures var es := Transfer(client, ops);
            Ascending(NamesOf(es)) && EntrySet(es) == Incoming(ops) && DistinctPaths(es)
  {
    hide StrictlySorted, With, Incoming, TextLe;
    if |ops| > 0 {
      var n := |ops| - 1;
      FrontSorted(ops);
      TransferSorted(client, ops[..n]);
      var rest, es := Transfer(client, ops[..n]), Transfer(client, ops);
      if ops[n].action != Deleted {
        assert es == rest + [client[ops[n].path]];
        assert NamesOf(es) == NamesOf(rest) + [ops[n].path];
        forall i | 0 <= i < |rest| ensures TextLe(rest[i].path, ops[n].path) && rest[i].path != ops[n].path {
          assert rest[i].path in EntrySet(rest);
          WithIsPath(ops[..n], Added, rest[i].path);
        }
        EntrySetStep(es);
        assert es[..|rest|] == rest;
      } else {
        assert es == rest;
      }
    } else {
      NoneWith(ops, Added);
    }
  }

  /** Among added paths, no file comes after a directory. */
  predicate Tidy(t: Tree, ops: seq<Op>) {
    forall p, q :: p in AddedPaths(ops) && q in AddedPaths(ops) && p != q && TextLe(p, q) && p in t && t[p].Dir? ==>
        !IsLeaf(t, q)
  }

  /** Nothing unlisted stands at an added path, or nothing but files. */
  predicate Sweepable(t: Tree, ops: seq<Op>) { AddsFresh(t, ops) || NoDirAt(t, AddedPaths(ops)) }

  /** An upload replaces the directories it passes and none after the point where it stops. */
  lemma UploadTidy(t: Tree, u: Tree, staged: Tree, client: Files, ops: seq<Op>, k: nat)
    requires StrictlySorted(ops) && Keyed(client) && forall p :: p in Incoming(ops) ==> p in client
    requires Sweepable(t, ops) && Frontier(t, u, staged, Transfer(client, ops), k) && NoNewDirs(t, u, Paths(ops))
    ensures Tidy(u, ops)
  {
    hide TextLe, Transfer, StrictlySorted;
    var es := Transfer(client, ops);
    TransferSorted(client, ops);
    OpSets(ops);
    forall p, q | p in AddedPaths(ops) && q in AddedPaths(ops) && p != q && TextLe(p, q) && p in u && u[p].Dir?
      ensures !IsLeaf(u, q)
    {
      if AddsFresh(t, ops) {
        var i :| 0 <= i < |es| && es[i].path == p;
        var j :| 0 <= j < |es| && es[j].path == q;
        InOrder(NamesOf(es), i, j);
        assert i < j && (i < k ==> InPlace(u, staged, es[i]));
        assert SameAt(t, u, es[j].path);
      }
    }
  }

  lemma InOrder(ps: seq<Path>, i: nat, j: nat)
    requires Ascending(ps) && i < |ps| && j < |ps| && ps[i] != ps[j] && TextLe(ps[i], ps[j])
    ensures i < j
  {
    hide TextLe;
    if j < i {
      TextLeTotal(ps[i], ps[j]);
    }
  }

  /** What touches no added path and makes no directory keeps that. */
  lemma StaysTidy(t: Tree, u: Tree, ops: seq<Op>, ps: set<Path>)
    requires Tidy(t, ops) && SameOff(t, u, ps) && ps !! AddedPaths(ops) && NoNewDirs(t, u, Paths(ops))
    ensures Tidy(u, ops)
  {
    hide TextLe;
    OpSets(ops);
    forall p | p in AddedPaths(ops) ensures SameAt(t, u, p) && (p in u && u[p].Dir? ==> p in t && t[p].Dir?) {}
  }

  lemma AddedInOrder(ops: seq<Op>)
    requires StrictlySorted(ops)
    ensures Ascending(PathsOf(ops, Added)) && NoRepeats(PathsOf(ops, Added))
              && PathSet(PathsOf(ops, Added)) == AddedPaths(ops)
  {
    hide TextLe, StrictlySorted, PathsOf;
    PathsOfSorted(ops, Added);
    OpSets(ops);
  }

  /** An added path that removal in order reaches: no directory stands there or at one before it. */
  predicate Swept(t: Tree, ops: seq<Op>, p: Path) {
    p in AddedPaths(ops) && forall q :: q in AddedPaths(ops) && (q == p || TextLe(q, p)) ==> !(q in t && t[q].Dir?)
  }

  lemma SweptIff(t: Tree, ops: seq<Op>, rs: seq<Path>, k: nat, i: nat)
    requires Ascending(rs) && PathSet(rs) == AddedPaths(ops) && k <= |rs| && i < |rs|
    requires forall j :: 0 <= j < k ==> !(rs[j] in t && t[rs[j]].Dir?)
    requires k < |rs| ==> rs[k] in t && t[rs[k]].Dir?
    ensures Swept(t, ops, rs[i]) <==> i < k
  {
    hide TextLe, AddedPaths;
    if i < k {
      forall q | q in AddedPaths(ops) && (q == rs[i] || TextLe(q, rs[i])) ensures !(q in t && t[q].Dir?) {
        var j :| 0 <= j < |rs| && rs[j] == q;
        if q != rs[i] {
          InOrder(rs, j, i);
        }
      }
    } else {
      assert rs[k] in PathSet(rs) && (k == i || TextLe(rs[k], rs[i]));
    }
  }
}
