/** hydrateRefs as a whole (server/internal/codemap/codemap.go): references are clamped in place, grouped by
    path, and each group is answered from one read of its file. */
module CodemapHydrate {
  import opened CodemapSnippets
  import opened Sorting
  import opened Text
  import opened Wrappers

  datatype Ref = Ref(path: string, range: Range, snippet: string)

  /** A reference of a group: its clamped range and its place in the list. */
  datatype Pair = Pair(range: Range, at: nat)

  predicate PairLe(a: Pair, b: Pair) { RangeLe(a.range, b.range) }

  function Snippet(ls: Lines): string {
    var s := Join(ls) + "\n";
    if |s| > SNIPPET_CAP then s[..SNIPPET_CAP] else s
  }

  function Group(refs: seq<Ref>, path: string): seq<Pair> {
    if |refs| == 0 then []
    else
      var n := |refs| - 1;
      Group(refs[..n], path) + (if refs[n].path == path then [Pair(Clamp(refs[n].range), n)] else [])
  }

  function Ranges(ps: seq<Pair>): seq<Range> { seq(|ps|, k requires 0 <= k < |ps| => ps[k].range) }

  /** The ranges asked of one path, ascending. */
  function Asked(refs: seq<Ref>, path: string): seq<Range> { Ranges(Sort(Group(refs, path), PairLe)) }

  function SnippetFor(back: Option<string>, bs: seq<Range>, r: Range): string {
    if Offset(bs, r.start) < 0 || r.start > r.end then ""
    else match Outcome(back, bs, r) case None => "" case Some(ls) => Snippet(ls)
  }

  /** What becomes of one reference. `valid` is the path check, `exec` the command per path and blocks. */
  function Hydrated(refs: seq<Ref>, i: nat, valid: string -> bool, exec: (string, seq<Range>) -> Option<string>): Ref
    requires i < |refs|
  {
    var r := refs[i];
    if !valid(r.path) then r.(snippet := "")
    else
      var blocks := Merge(Asked(refs, r.path));
      r.(range := Clamp(r.range), snippet := SnippetFor(exec(r.path, blocks), blocks, Clamp(r.range)))
  }

  predicate MemberOf(refs: seq<Ref>, path: string, p: Pair) {
    p.at < |refs| && refs[p.at].path == path && p.range == Clamp(refs[p.at].range)
  }

  lemma {:induction false} GroupMembers(refs: seq<Ref>, path: string)
    ensures forall p :: p in Group(refs, path) <==> MemberOf(refs, path, p)
  {
    hide Clamp;
    if |refs| > 0 {
      var n := |refs| - 1;
      GroupMembers(refs[..n], path);
      forall p
        ensures MemberOf(refs, path, p) <==>
                  MemberOf(refs[..n], path, p) || (refs[n].path == path && p == Pair(Clamp(refs[n].range), n)) {}
    }
  }

  lemma {:induction false} GroupAscends(refs: seq<Ref>, path: string)
    ensures forall k :: 0 <= k < |Group(refs, path)| ==> Group(refs, path)[k].at < |refs|
    ensures forall i, j :: 0 <= i < j < |Group(refs, path)| ==> Group(refs, path)[i].at < Group(refs, path)[j].at
  {
    if |refs| > 0 {
      GroupAscends(refs[..|refs| - 1], path);
    }
  }

  lemma PairOrder()
    ensures TotalPreorder(PairLe)
  {
  }

  /** Sorting a group keeps its members, each once, and makes its ranges ascending. */
  lemma SortedGroup(refs: seq<Ref>, path: string)
    ensures var g := Sort(Group(refs, path), PairLe);
            && Proper(Ranges(g)) && InOrder(Ranges(g))
            && (forall p :: p in g <==> MemberOf(refs, path, p))
            && (forall i, j :: 0 <= i < j < |g| ==> g[i].at != g[j].at)
  {
    hide Group, Sort;
    var all, g := Group(refs, path), Sort(Group(refs, path), PairLe);
    PairOrder();
    GroupMembers(refs, path);
    GroupAscends(refs, path);
    assert forall i, j :: 0 <= i < j < |all| ==> all[i].at < all[j].at;
    SortSorted(all, PairLe);
    SortMembers(all, PairLe);
    SortKeepsDistinct(all, PairLe);
    forall k | 0 <= k < |g| ensures 1 <= g[k].range.start <= g[k].range.end {
      assert g[k] in g;
    }
    forall i, j | 0 <= i < j < |g| ensures g[i].at != g[j].at {
      assert g[i] in g && g[j] in g;
    }
  }

  function Clamped(r: Ref, valid: string -> bool): Ref {
    if valid(r.path) then r.(range := Clamp(r.range)) else r.(snippet := "")
  }

  function Get(m: map<string, seq<Pair>>, p: string): seq<Pair> { if p in m then m[p] else [] }

  lemma NoGroup(refs: seq<Ref>)
    ensures forall p :: Group(refs[..0], p) == []
  {
  }

  lemma GroupStep(refs: seq<Ref>, i: nat)
    requires i < |refs|
    ensures forall p :: Group(refs[..i + 1], p) ==
              if refs[i].path == p then Group(refs[..i], p) + [Pair(Clamp(refs[i].range), i)] else Group(refs[..i], p)
  {
    assert refs[..i + 1][..i] == refs[..i] && refs[..i + 1][i] == refs[i];
  }

  /** The first loop: clamp in place and group by path; an invalid path never reaches the shell. */
  method ClampAndGroup(refs: array<Ref>, valid: string -> bool) returns (byPath: map<string, seq<Pair>>)
    modifies refs
    ensures forall i :: 0 <= i < refs.Length ==> refs[i] == Clamped(old(refs[i]), valid)
    ensures forall i :: 0 <= i < refs.Length && valid(old(refs[i]).path) ==> old(refs[i]).path in byPath
    ensures forall p :: p in byPath ==> valid(p) && byPath[p] == Group(old(refs[..]), p)
  {
    hide Clamp, Group;
    ghost var was := refs[..];
    byPath := map[];
    NoGroup(was);
    for i := 0 to refs.Length
      invariant forall p :: p in byPath ==> valid(p)
      invariant forall j :: 0 <= j < i && valid(was[j].path) ==> was[j].path in byPath
      invariant forall p :: valid(p) ==> Get(byPath, p) == Group(was[..i], p)
      invariant forall j :: 0 <= j < i ==> refs[j] == Clamped(was[j], valid)
      invariant forall j :: i <= j < refs.Length ==> refs[j] == was[j]
    {
      var r := refs[i];
      GroupStep(was, i);
      if !valid(r.path) {
        refs[i] := r.(snippet := "");
        continue;
      }
      refs[i] := r.(range := Clamp(r.range));
      byPath := byPath[r.path := Get(byPath, r.path) + [Pair(Clamp(r.range), i)]];
    }
    assert was[..refs.Length] == was;
    assert forall p :: p in byPath ==> Get(byPath, p) == byPath[p];
  }

  method HydrateRefs(refs: array<Ref>, valid: string -> bool, exec: (string, seq<Range>) -> Option<string>)
    modifies refs
    ensures forall i :: 0 <= i < refs.Length ==> refs[i] == Hydrated(old(refs[..]), i, valid, exec)
  {
    hide Group, SnippetFor, Asked, Clamp, Merge;
    ghost var was := refs[..];
    var byPath := ClampAndGroup(refs, valid);
    var todo := byPath.Keys;
    while todo != {}
      invariant todo <= byPath.Keys
      invariant forall j :: 0 <= j < refs.Length && was[j].path !in todo ==> refs[j] == Hydrated(was, j, valid, exec)
      invariant forall j :: 0 <= j < refs.Length && was[j].path in todo ==> refs[j] == Clamped(was[j], valid)
      decreases todo
    {
      var path :| path in todo;
      HydratePath(refs, byPath[path], path, x => exec(path, x), was, valid, exec);
      todo := todo - {path};
    }
    forall j | 0 <= j < refs.Length ensures refs[j] == Hydrated(was, j, valid, exec) {
      assert was[j].path !in todo;
    }
  }

  /** One group: read its file once and hand each member its slice. */
  method HydratePath(refs: array<Ref>, group: seq<Pair>, path: string, read: seq<Range> -> Option<string>,
                     ghost was: seq<Ref>,
                     ghost valid: string -> bool, ghost exec: (string, seq<Range>) -> Option<string>)
    requires |was| == refs.Length && group == Group(was, path) && valid(path) && forall b :: read(b) == exec(path, b)
    requires forall j :: 0 <= j < refs.Length && was[j].path == path ==> refs[j] == Clamped(was[j], valid)
    modifies refs
    ensures forall j :: 0 <= j < refs.Length ==> refs[j] == if was[j].path == path then Hydrated(was, j, valid, exec)
              else old(refs[j])
  {
    hide Merge, Outcome, Offset, Snippet, Clamp, Group, Sort, InOrder, Proper;
    var sorted := Sort(group, PairLe);
    SortedGroup(was, path);
    var rs := Ranges(sorted);
    var res := HydrateGroup(rs, read);
    ghost var start := refs[..];
    forall k | 0 <= k < |sorted| ensures MemberOf(was, path, sorted[k]) { assert sorted[k] in sorted; }
    for k := 0 to |sorted|
      invariant forall i :: 0 <= i < k ==> refs[sorted[i].at] == Hydrated(was, sorted[i].at, valid, exec)
      invariant forall i :: k <= i < |sorted| ==> refs[sorted[i].at] == start[sorted[i].at]
      invariant forall j :: 0 <= j < refs.Length && was[j].path != path ==> refs[j] == start[j]
    {
      var at := sorted[k].at;
      refs[at] := refs[at].(snippet := match res[k] case None => "" case Some(ls) => Snippet(ls));
      assert rs[k] == Clamp(was[at].range);
      assert refs[at] == Hydrated(was, at, valid, exec);
    }
    forall j | 0 <= j < refs.Length && was[j].path == path ensures refs[j] == Hydrated(was, j, valid, exec) {
      assert Pair(Clamp(was[j].range), j) in sorted;
    }
  }

  /** A range in order and at most ten lines long is left alone; any other starts at its first line from 1 on and ends
      between there and nine lines on, as near to its end as that allows. */
  lemma ClampIs(r: Range)
    ensures 1 <= r.start <= r.end <= r.start + 9 ==> Clamp(r) == r
    ensures Clamp(r).start == Max(1, r.start)
    ensures Clamp(r).end == Min(Max(r.end, Max(1, r.start)), Max(1, r.start) + 9)
  {
  }

  function Max(a: int, b: int): int { if a < b then b else a }

  /** The lines that a reference asks for: from its first line, or 1, to its last, but ten at most. */
  function FirstLine(r: Range): int { Max(1, r.start) }

  function LastLine(r: Range): int { Min(Max(r.end, FirstLine(r)), FirstLine(r) + 9) }

  /** Batched reading gives every reference of a text file the lines it asks for that the file has, each with its
      newline, up to 4096 characters, and nothing exactly when it starts past the end. The reference comes back
      with the range it was given. */
  lemma HydratedIsDirect(refs: seq<Ref>, i: nat, valid: string -> bool, exec: (string, seq<Range>) -> Option<string>,
                         file: Lines, final: bool)
    requires i < |refs| && valid(refs[i].path)
    requires var bs := Merge(Asked(refs, refs[i].path));
             var t := OutText(Printed(file, bs), final);
             && exec(refs[i].path, bs) == Some(t)
             && GoodText(Printed(file, bs), final) && '\0' !in t && !Blank(t)
    ensures var a, b, h := FirstLine(refs[i].range), LastLine(refs[i].range), Hydrated(refs, i, valid, exec);
            && h == Ref(refs[i].path, Range(a, b), h.snippet)
            && (a > |file| ==> h.snippet == "")
            && (a <= |file| ==>
                  var text := Join(file[a - 1..Min(b, |file|)]) + "\n";
                  h.snippet == text[..Min(|text|, 4096)] && h.snippet != "")
  {
    hide Merge, Printed, Offset, Clamp, Group, Sort, Outcome, OutText, GoodText, Blank, Join, InOrder, Proper;
    var r := refs[i].range;
    ClampIs(r);
    var g := Sort(Group(refs, refs[i].path), PairLe);
    SortedGroup(refs, refs[i].path);
    assert Pair(Clamp(r), i) in g;
    var k :| 0 <= k < |g| && g[k] == Pair(Clamp(r), i);
    assert Asked(refs, refs[i].path)[k] == Clamp(r);
    BatchedIsDirect(file, Asked(refs, refs[i].path), final, k);
  }

  /** When a file cannot be read, or what is read of it holds a NUL or nothing but white space, all references to it
      lose their snippets and keep their ranges. */
  lemma DroppedTogether(refs: seq<Ref>, i: nat, valid: string -> bool, exec: (string, seq<Range>) -> Option<string>)
    requires i < |refs| && valid(refs[i].path)
    requires var out := exec(refs[i].path, Merge(Asked(refs, refs[i].path)));
             out.None? || '\0' in out.value || Blank(out.value)
    ensures Hydrated(refs, i, valid, exec)
            == Ref(refs[i].path, Range(FirstLine(refs[i].range), LastLine(refs[i].range)), "")
  {
    hide Merge, Offset, Clamp, Slice, TrimSpace;
    ClampIs(refs[i].range);
    var out := exec(refs[i].path, Merge(Asked(refs, refs[i].path)));
    if out.Some? {
      BlankTrimsAway(out.value);
    }
  }

  /** A reference whose path is refused loses its snippet and nothing else; and no reference's range plays a part in the
      answers for other paths. */
  lemma RefusedIsDropped(refs: seq<Ref>, i: nat, r: Range,
                         valid: string -> bool, exec: (string, seq<Range>) -> Option<string>)
    requires i < |refs| && !valid(refs[i].path)
    ensures Hydrated(refs, i, valid, exec) == Ref(refs[i].path, refs[i].range, "")
    ensures forall j :: 0 <= j < |refs| && refs[j].path != refs[i].path ==>
              Hydrated(refs, j, valid, exec) == Hydrated(refs[i := refs[i].(range := r)], j, valid, exec)
  {
    forall j | 0 <= j < |refs| && refs[j].path != refs[i].path
      ensures Group(refs[i := refs[i].(range := r)], refs[j].path) == Group(refs, refs[j].path)
    {
      OtherPath(refs, i, r, refs[j].path);
    }
  }

  lemma {:induction false} OtherPath(refs: seq<Ref>, i: nat, r: Range, path: string)
    requires i < |refs| && refs[i].path != path
    ensures Group(refs[i := refs[i].(range := r)], path) == Group(refs, path)
  {
    var n := |refs| - 1;
    var other := refs[i := refs[i].(range := r)];
    if i < n {
      assert other[..n] == refs[..n][i := refs[..n][i].(range := r)];
      OtherPath(refs[..n], i, r, path);
    } else {
      assert other[..n] == refs[..n];
    }
  }
}
