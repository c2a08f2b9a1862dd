/** The file system under a sync: a tree of directories, files and symbolic links, the calls that
    backup.go makes on it, and its view as a flat map from path to leaf. */
module SyncFolder {
  import opened SyncManifest

  datatype Node = Dir | File(bytes: Bytes, mode: nat) | Link(target: string)

  /** Everything below one folder, by path; the folder itself is always there. */
  type Tree = map<Path, Node>

  /** The directories on the way to `p`. */
  function Parents(p: Path): set<Path> { set i | 0 <= i < |p| && p[i] == '/' :: p[..i] }

  predicate WellFormed(t: Tree) { forall p, a :: p in t && a in Parents(p) ==> a in t && t[a].Dir? }

  predicate IsLeaf(t: Tree, p: Path) { p in t && !t[p].Dir? }

  function Leaves(t: Tree): Tree { map p | p in t && !t[p].Dir? :: t[p] }

  /** A file or link stands where a directory on the way to `p` should be. */
  predicate Blocked(t: Tree, p: Path) { exists a :: a in Parents(p) && IsLeaf(t, a) }

  predicate Populated(t: Tree, p: Path) { exists q :: q in t && p in Parents(q) }

  datatype Status = Done | NotExist | Failed

  // ---- The system calls. Errors leave the tree alone.

  /** os.Remove: a leaf or an empty directory. */
  function Remove(t: Tree, p: Path): (Tree, Status) {
    if Blocked(t, p) then (t, Failed)
    else if p !in t then (t, NotExist)
    else if t[p].Dir? && Populated(t, p) then (t, Failed)
    else (t - {p}, Done)
  }

  /** os.MkdirAll on the directory of `p`. */
  function MkdirParents(t: Tree, p: Path): (Tree, Status) {
    if Blocked(t, p) then (t, Failed)
    else (t + (map a | a in Parents(p) :: Dir), Done)
  }

  /** os.OpenFile with create and truncate, then the copy. An existing file keeps its mode. A link is
      not followed here: copyEntry and the tar reader have just removed it. */
  function WriteFile(t: Tree, p: Path, bytes: Bytes, mode: nat): (Tree, Status) {
    if !(forall a :: a in Parents(p) ==> a in t && t[a].Dir?) then (t, Failed)
    else if p !in t then (t[p := File(bytes, mode)], Done)
    else if t[p].File? then (t[p := File(bytes, t[p].mode)], Done)
    else (t, Failed)
  }

  function MakeLink(t: Tree, p: Path, target: string): (Tree, Status) {
    if !(forall a :: a in Parents(p) ==> a in t && t[a].Dir?) || p in t then (t, Failed)
    else (t[p := Link(target)], Done)
  }

  /** copyEntry: make room at `p`, then recreate what `staged` holds there with the recorded kind and mode. */
  function CopyEntry(t: Tree, p: Path, staged: Tree, kind: Kind, mode: nat): (Tree, Status) {
    var (t1, made) := MkdirParents(t, p);
    if made != Done then (t1, Failed) else
    var t2 := Remove(t1, p).0;
    if p !in staged then (t2, Failed)
    else if kind == Symlink then (if staged[p].Link? then MakeLink(t2, p, staged[p].target) else (t2, Failed))
    else if staged[p].File? then WriteFile(t2, p, staged[p].bytes, mode)
    else (t2, Failed)
  }

  /** What a successful copyEntry leaves at its path. */
  function Copied(n: Node, mode: nat): Node {
    if n.File? then File(n.bytes, mode) else n
  }

  predicate KindOf(n: Node, kind: Kind) { if kind == Symlink then n.Link? else n.File? }

  // ---- On paths with room for them, the tree behaves as a flat map of its leaves

  /** Nothing stands in the way of `p`, and nothing lies below it. */
  predicate Room(t: Tree, p: Path) { !Blocked(t, p) && !Populated(t, p) }

  lemma ParentsOfParent(p: Path, a: Path)
    requires a in Parents(p)
    ensures Parents(a) <= Parents(p) && a != p && |a| < |p|
  {
    var i :| 0 <= i < |p| && p[i] == '/' && a == p[..i];
    forall b | b in Parents(a) ensures b in Parents(p) {
      var j :| 0 <= j < |a| && a[j] == '/' && b == a[..j];
      assert p[j] == '/' && b == p[..j];
    }
  }

  lemma MkdirIsFlat(t: Tree, p: Path)
    requires WellFormed(t) && !Blocked(t, p)
    ensures var u := MkdirParents(t, p).0;
            && WellFormed(u) && Leaves(u) == Leaves(t)
            && (p in u <==> p in t) && (p in t ==> u[p] == t[p])
            && (forall a :: a in Parents(p) ==> a in u && u[a].Dir?)
  {
    var u := MkdirParents(t, p).0;
    forall a | a in Parents(p) ensures a != p && Parents(a) <= Parents(p) { ParentsOfParent(p, a); }
    forall q, a | q in u && a in Parents(q) ensures a in u && u[a].Dir? {
      if q in t {
        assert a in t && t[a].Dir?;
      }
    }
  }

  lemma RemoveIsFlat(t: Tree, p: Path)
    requires WellFormed(t) && Room(t, p)
    ensures var (u, st) := Remove(t, p);
            && st == (if p in t then Done else NotExist)
            && u == t - {p} && WellFormed(u) && Leaves(u) == Leaves(t) - {p}
  {
    var u := Remove(t, p).0;
    assert u == t - {p};
  }

  lemma PutIsFlat(t: Tree, p: Path, n: Node)
    requires WellFormed(t) && p !in t && !n.Dir? && forall a :: a in Parents(p) ==> a in t && t[a].Dir?
    ensures WellFormed(t[p := n]) && Leaves(t[p := n]) == Leaves(t)[p := n]
  {
    forall q, a | q in t[p := n] && a in Parents(q) ensures a in t[p := n] && t[p := n][a].Dir? {
      if q != p {
        assert a in t && t[a].Dir?;
      }
    }
  }

  /** Making room at `p`: the parents exist and nothing is left at `p` itself. */
  lemma ClearIsFlat(t: Tree, p: Path)
    requires WellFormed(t) && Room(t, p)
    ensures var u := Remove(MkdirParents(t, p).0, p).0;
            && WellFormed(u) && Leaves(u) == Leaves(t) - {p}
            && p !in u && (forall a :: a in Parents(p) ==> a in u && u[a].Dir?)
  {
    MkdirIsFlat(t, p);
    var t1 := MkdirParents(t, p).0;
    forall q | q in t1 ensures p !in Parents(q) {
      if q in Parents(p) {
        ParentsOfParent(p, q);
      }
      assert q in t && p in Parents(q) ==> Populated(t, p);
    }
    forall a | a in Parents(p) ensures a != p { ParentsOfParent(p, a); }
    RemoveIsFlat(t1, p);
  }

  /** copyEntry on a path with room is an update of the flat map, whatever stood there before. */
  lemma CopyIsFlat(t: Tree, p: Path, staged: Tree, kind: Kind, mode: nat)
    requires WellFormed(t) && Room(t, p) && p in staged && KindOf(staged[p], kind)
    ensures var (u, st) := CopyEntry(t, p, staged, kind, mode);
            st == Done && WellFormed(u) && Leaves(u) == Leaves(t)[p := Copied(staged[p], mode)]
  {
    ClearIsFlat(t, p);
    PutIsFlat(Remove(MkdirParents(t, p).0, p).0, p, Copied(staged[p], mode));
    assert (Leaves(t) - {p})[p := Copied(staged[p], mode)] == Leaves(t)[p := Copied(staged[p], mode)];
  }

  // ---- Several paths at once

  /** No path of `ps` is a directory on the way to another. */
  predicate Separate(ps: set<Path>) { forall p, q :: p in ps && q in ps ==> p !in Parents(q) }

  predicate Roomy(t: Tree, ps: set<Path>) { forall p :: p in ps ==> Room(t, p) }

  /** `t` differs from `t0` only at `ps`, and each path of `ps` has room. */
  predicate Confined(t0: Tree, t: Tree, ps: set<Path>) {
    WellFormed(t) && Roomy(t, ps) && Leaves(t) - ps == Leaves(t0) - ps
  }

  lemma StaysRoomy(t: Tree, u: Tree, ps: set<Path>, p: Path)
    requires Separate(ps) && p in ps && Roomy(t, ps)
    requires u.Keys <= t.Keys + Parents(p) + {p}
    requires forall q :: IsLeaf(u, q) && q != p ==> IsLeaf(t, q)
    ensures Roomy(u, ps)
  {
    forall q | q in ps ensures Room(u, q) {
      forall r | r in u ensures q !in Parents(r) {
        if r in Parents(p) {
          ParentsOfParent(p, r);
        }
        assert r in t && q in Parents(r) ==> Populated(t, q);
      }
      forall a | a in Parents(q) ensures !IsLeaf(u, a) {
        assert IsLeaf(t, a) ==> Blocked(t, q);
      }
    }
  }

  lemma RemoveConfined(t0: Tree, t: Tree, ps: set<Path>, p: Path)
    requires Separate(ps) && p in ps && Confined(t0, t, ps)
    ensures var (u, st) := Remove(t, p); st != Failed && Confined(t0, u, ps) && Leaves(u) == Leaves(t) - {p}
  {
    RemoveIsFlat(t, p);
    var u := Remove(t, p).0;
    forall q | IsLeaf(u, q) ensures IsLeaf(t, q) { assert q in Leaves(u); }
    StaysRoomy(t, u, ps, p);
    assert Leaves(t) - {p} - ps == Leaves(t) - ps;
  }

  lemma MkdirConfined(t0: Tree, t: Tree, ps: set<Path>, p: Path)
    requires Separate(ps) && p in ps && Confined(t0, t, ps)
    ensures var (u, st) := MkdirParents(t, p);
            && st == Done && Confined(t0, u, ps) && (forall a :: a in Parents(p) ==> a in u && u[a].Dir?)
  {
    MkdirIsFlat(t, p);
    var u := MkdirParents(t, p).0;
    forall q | IsLeaf(u, q) ensures IsLeaf(t, q) { assert q in Leaves(u); }
    StaysRoomy(t, u, ps, p);
  }

  lemma PutConfined(t0: Tree, t: Tree, ps: set<Path>, p: Path, n: Node)
    requires Separate(ps) && p in ps && Confined(t0, t, ps) && p !in t && !n.Dir?
    requires forall a :: a in Parents(p) ==> a in t && t[a].Dir?
    ensures Confined(t0, t[p := n], ps)
  {
    PutIsFlat(t, p, n);
    StaysRoomy(t, t[p := n], ps, p);
    assert Leaves(t)[p := n] - ps == Leaves(t) - ps;
  }

  lemma ClearConfined(t0: Tree, t: Tree, ps: set<Path>, p: Path)
    requires Separate(ps) && p in ps && Confined(t0, t, ps)
    ensures var u := Remove(MkdirParents(t, p).0, p).0;
            && Confined(t0, u, ps) && p !in u && (forall a :: a in Parents(p) ==> a in u && u[a].Dir?)
  {
    MkdirConfined(t0, t, ps, p);
    var t1 := MkdirParents(t, p).0;
    RemoveConfined(t0, t1, ps, p);
    RemoveIsFlat(t1, p);
    forall a | a in Parents(p) ensures a != p { ParentsOfParent(p, a); }
  }

  /** copyEntry, failing or not, touches only `p`: it holds the recreated entry, or nothing. */
  lemma CopyConfined(t0: Tree, t: Tree, ps: set<Path>, p: Path, staged: Tree, kind: Kind, mode: nat)
    requires Separate(ps) && p in ps && Confined(t0, t, ps)
    ensures var (u, st) := CopyEntry(t, p, staged, kind, mode);
            var ok := p in staged && KindOf(staged[p], kind);
            && Confined(t0, u, ps)
            && (st == Done <==> ok)
            && Leaves(u) == (if ok then Leaves(t)[p := Copied(staged[p], mode)] else Leaves(t) - {p})
  {
    MkdirConfined(t0, t, ps, p);
    ClearConfined(t0, t, ps, p);
    ClearIsFlat(t, p);
    if p in staged && KindOf(staged[p], kind) {
      CopyIsFlat(t, p, staged, kind, mode);
      PutConfined(t0, Remove(MkdirParents(t, p).0, p).0, ps, p, Copied(staged[p], mode));
    }
  }

  // ---- The folder as an object

  class Folder {
    var tree: Tree

    constructor (t: Tree)
      ensures tree == t
    {
      tree := t;
    }

    method Delete(p: Path) returns (st: Status)
      modifies this
      ensures (tree, st) == Remove(old(tree), p)
    {
      if Blocked(tree, p) {
        return Failed;
      }
      if p !in tree {
        return NotExist;
      }
      if tree[p].Dir? && Populated(tree, p) {
        return Failed;
      }
      tree := tree - {p};
      return Done;
    }

    method MakeParents(p: Path) returns (st: Status)
      modifies this
      ensures (tree, st) == MkdirParents(old(tree), p)
    {
      if Blocked(tree, p) {
        return Failed;
      }
      tree := tree + map a | a in Parents(p) :: Dir;
      return Done;
    }

    method Put(p: Path, n: Node) returns (st: Status)
      requires !n.Dir?
      modifies this
      ensures (tree, st) == if n.File? then WriteFile(old(tree), p, n.bytes, n.mode)
                else MakeLink(old(tree), p, n.target)
    {
      if !(forall a :: a in Parents(p) ==> a in tree && tree[a].Dir?) {
        return Failed;
      }
      if p !in tree {
        tree := tree[p := n];
        return Done;
      }
      if n.File? && tree[p].File? {
        tree := tree[p := File(n.bytes, tree[p].mode)];
        return Done;
      }
      return Failed;
    }

    method Copy(p: Path, staged: Tree, kind: Kind, mode: nat) returns (st: Status)
      modifies this
      ensures (tree, st) == CopyEntry(old(tree), p, staged, kind, mode)
    {
      st := MakeParents(p);
      if st != Done {
        return;
      }
      var _ := Delete(p);
      if kind == Symlink {
        if p !in staged || !staged[p].Link? {
          return Failed;
        }
        st := Put(p, staged[p]);
        return;
      }
      if p !in staged || !staged[p].File? {
        return Failed;
      }
      st := Put(p, File(staged[p].bytes, mode));
    }
  }
}
