/** Batched snippet reads against direct ones (hydrateRefs, server/internal/codemap/codemap.go). */
module CodemapSnippets {
  import opened Text
  import opened Wrappers

  /** A range of lines, both ends included, counted from 1. */
  datatype Range = Range(start: int, end: int)

  type Lines = seq<string>

  const MAX_SPAN := 9
  const SNIPPET_CAP := 4096

  function Clamp(r: Range): (c: Range)
    ensures 1 <= c.start <= c.end <= c.start + MAX_SPAN
  {
    var start := if r.start < 1 then 1 else r.start;
    var end := if r.end < start then start else r.end;
    Range(start, if end - start > MAX_SPAN then start + MAX_SPAN else end)
  }

  predicate RangeLe(a: Range, b: Range) { a.start < b.start || (a.start == b.start && a.end <= b.end) }

  predicate Proper(rs: seq<Range>) { forall i :: 0 <= i < |rs| ==> 1 <= rs[i].start <= rs[i].end }

  predicate InOrder(rs: seq<Range>) { forall i, j :: 0 <= i < j < |rs| ==> rs[i].start <= rs[j].start }

  predicate Covers(b: Range, line: int) { b.start <= line <= b.end }

  // ---- Merging

  /** Blocks in ascending order with at least one line between neighbours. */
  predicate Separated(bs: seq<Range>) { forall i, j :: 0 <= i < j < |bs| ==> bs[i].end + 1 < bs[j].start }

  predicate Within(bs: seq<Range>, r: Range) {
    exists j :: 0 <= j < |bs| && bs[j].start <= r.start && r.end <= bs[j].end
  }

  /** Merging loses and adds no line. */
  ghost predicate SameLines(bs: seq<Range>, rs: seq<Range>) {
    && (forall i :: 0 <= i < |rs| ==> Within(bs, rs[i]))
    && (forall j, line :: 0 <= j < |bs| && Covers(bs[j], line) ==> exists i :: 0 <= i < |rs| && Covers(rs[i], line))
  }

  /** One more range, in ascending order: absorbed by the last block if it overlaps or touches it. */
  function MergeOne(bs: seq<Range>, r: Range): seq<Range> {
    var n := |bs| - 1;
    if n >= 0 && r.start <= bs[n].end + 1 then (if r.end > bs[n].end then bs[n := Range(bs[n].start, r.end)] else bs)
    else bs + [r]
  }

  function Merge(rs: seq<Range>): seq<Range> {
    if |rs| == 0 then [] else MergeOne(Merge(rs[..|rs| - 1]), rs[|rs| - 1])
  }

  method MergeRanges(rs: seq<Range>) returns (bs: seq<Range>)
    ensures bs == Merge(rs)
  {
    bs := [];
    for k := 0 to |rs|
      invariant bs == Merge(rs[..k])
    {
      assert rs[..k + 1][..k] == rs[..k];
      var r, n := rs[k], |bs|;
      if n > 0 && r.start <= bs[n - 1].end + 1 {
        if r.end > bs[n - 1].end {
          bs := bs[n - 1 := Range(bs[n - 1].start, r.end)];
        }
      } else {
        bs := bs + [r];
      }
    }
    assert rs[..|rs|] == rs;
  }

  /** Merged blocks are ascending and pairwise separated, and cover exactly the lines of the ranges. */
  lemma {:induction false} MergeExact(rs: seq<Range>)
    requires Proper(rs) && InOrder(rs)
    ensures Proper(Merge(rs)) && Separated(Merge(rs)) && SameLines(Merge(rs), rs)
    ensures |rs| > 0 ==> |Merge(rs)| > 0 && Merge(rs)[|Merge(rs)| - 1].start <= rs[|rs| - 1].start
  {
    hide SameLines, Separated, MergeOne;
    if |rs| == 0 {
      NoLines();
      NoneSeparated();
    } else {
      var front, r := rs[..|rs| - 1], rs[|rs| - 1];
      MergeExact(front);
      var bs := Merge(front);
      assert rs == front + [r];
      assert |front| > 0 ==> front[|front| - 1].start <= r.start;
      MergeOneKeeps(bs, front, r);
    }
  }

  lemma NoneSeparated()
    ensures Separated([])
  {
  }

  lemma MergeOneKeeps(bs: seq<Range>, rs: seq<Range>, r: Range)
    requires Proper(bs) && Separated(bs) && SameLines(bs, rs) && 1 <= r.start <= r.end
    requires |bs| > 0 ==> bs[|bs| - 1].start <= r.start
    ensures var m := MergeOne(bs, r);
            Proper(m) && Separated(m) && SameLines(m, rs + [r]) && |m| > 0 && m[|m| - 1].start <= r.start
  {
    hide SameLines;
    if |bs| > 0 && r.start <= bs[|bs| - 1].end + 1 {
      ExtendKeepsLines(bs, rs, r, MergeOne(bs, r));
    } else {
      AppendKeepsLines(bs, rs, r);
    }
  }

  lemma NoLines()
    ensures SameLines([], [])
  {
  }

  lemma ExtendKeepsLines(bs: seq<Range>, rs: seq<Range>, r: Range, after: seq<Range>)
    requires |bs| > 0 && SameLines(bs, rs) && bs[|bs| - 1].start <= r.start <= bs[|bs| - 1].end + 1
    requires after == if r.end > bs[|bs| - 1].end then bs[|bs| - 1 := Range(bs[|bs| - 1].start, r.end)] else bs
    ensures SameLines(after, rs + [r])
  {
    var all, n := rs + [r], |bs| - 1;
    forall i | 0 <= i < |all| ensures Within(after, all[i]) {
      if i < |rs| {
        assert Within(bs, rs[i]);
        var j :| 0 <= j < |bs| && bs[j].start <= rs[i].start && rs[i].end <= bs[j].end;
        assert after[j].start <= all[i].start && all[i].end <= after[j].end;
      } else {
        assert after[n].start <= all[i].start && all[i].end <= after[n].end;
      }
    }
    forall j, line | 0 <= j < |after| && Covers(after[j], line)
      ensures exists i :: 0 <= i < |all| && Covers(all[i], line)
    {
      if Covers(bs[j], line) {
        var i :| 0 <= i < |rs| && Covers(rs[i], line);
        assert Covers(all[i], line);
      } else {
        assert Covers(all[|rs|], line);
      }
    }
  }

  lemma AppendKeepsLines(bs: seq<Range>, rs: seq<Range>, r: Range)
    requires SameLines(bs, rs)
    ensures SameLines(bs + [r], rs + [r])
  {
    var all, after := rs + [r], bs + [r];
    forall i | 0 <= i < |all| ensures Within(after, all[i]) {
      if i < |rs| {
        assert Within(bs, rs[i]);
        var j :| 0 <= j < |bs| && bs[j].start <= rs[i].start && rs[i].end <= bs[j].end;
        assert after[j].start <= all[i].start && all[i].end <= after[j].end;
      } else {
        assert after[|bs|].start <= all[i].start && all[i].end <= after[|bs|].end;
      }
    }
    forall j, line | 0 <= j < |after| && Covers(after[j], line)
      ensures exists i :: 0 <= i < |all| && Covers(all[i], line)
    {
      if j < |bs| {
        var i :| 0 <= i < |rs| && Covers(rs[i], line);
        assert Covers(all[i], line);
      } else {
        assert Covers(all[|rs|], line);
      }
    }
  }

  // ---- What sed prints

  predicate Prints(bs: seq<Range>, line: int) { exists j :: 0 <= j < |bs| && Covers(bs[j], line) }

  /** sed -n 'a,bp;c,dp;...': line by line, a line is printed if some range covers it. */
  function Printed(file: Lines, bs: seq<Range>): Lines {
    if |file| == 0 then []
    else Printed(file[..|file| - 1], bs) + (if Prints(bs, |file|) then [file[|file| - 1]] else [])
  }

  function Min(a: int, b: int): int { if a < b then a else b }

  /** The part of one block that the file has. */
  function Part(file: Lines, b: Range): Lines
    requires 1 <= b.start
  {
    file[Min(b.start - 1, |file|)..if b.end < b.start then Min(b.start - 1, |file|) else Min(b.end, |file|)]
  }

  function Selected(file: Lines, bs: seq<Range>): Lines
    requires Proper(bs)
  {
    if |bs| == 0 then [] else Part(file, bs[0]) + Selected(file, bs[1..])
  }

  lemma TailProper(bs: seq<Range>)
    requires Proper(bs) && Separated(bs) && |bs| > 0
    ensures Proper(bs[1..]) && Separated(bs[1..])
  {
  }

  lemma {:induction false} SelectedBelow(file: Lines, bs: seq<Range>)
    requires Proper(bs) && Separated(bs) && (|bs| > 0 ==> |file| < bs[0].start)
    ensures Selected(file, bs) == []
  {
    if |bs| > 0 {
      assert |bs| > 1 ==> bs[0].end + 1 < bs[1].start;
      SelectedBelow(file, bs[1..]);
    }
  }

  lemma PrintsSplit(bs: seq<Range>, line: int)
    requires Proper(bs) && Separated(bs) && |bs| > 0
    ensures line > bs[0].end ==> (Prints(bs, line) <==> Prints(bs[1..], line))
    ensures line <= bs[0].end ==> (Prints(bs, line) <==> line >= bs[0].start)
  {
    assert forall j :: 0 < j < |bs| ==> bs[j] == bs[1..][j - 1];
    if j :| 0 <= j < |bs[1..]| && Covers(bs[1..][j], line) {
      assert Covers(bs[j + 1], line);
    }
  }

  lemma PartGrows(file: Lines, b: Range)
    requires 1 <= b.start <= b.end && |file| > 0
    ensures Part(file, b) == Part(file[..|file| - 1], b) + (if Covers(b, |file|) then [file[|file| - 1]] else [])
  {
    var n := |file|;
    if n < b.start {
      assert Part(file, b) == [] && Part(file[..n - 1], b) == [];
    } else if n <= b.end {
      assert Part(file, b) == file[b.start - 1..n] && Part(file[..n - 1], b) == file[b.start - 1..n - 1];
    } else {
      assert Part(file, b) == file[b.start - 1..b.end] && Part(file[..n - 1], b) == file[b.start - 1..b.end];
    }
  }

  lemma {:induction false} SelectedGrows(file: Lines, bs: seq<Range>)
    requires Proper(bs) && Separated(bs) && |file| > 0
    ensures Selected(file, bs) == Selected(file[..|file| - 1], bs) + (if Prints(bs, |file|) then [file[|file| - 1]]
              else [])
    decreases |bs|
  {
    hide Prints, Part;
    if |bs| > 0 {
      var n, b := |file|, bs[0];
      var front := file[..n - 1];
      TailProper(bs);
      PrintsSplit(bs, n);
      PartGrows(file, b);
      if n > b.end {
        SelectedGrows(file, bs[1..]);
      } else {
        assert |bs| > 1 ==> b.end + 1 < bs[1].start;
        SelectedBelow(file, bs[1..]);
        SelectedBelow(front, bs[1..]);
      }
    } else {
      assert !Prints(bs, |file|) by { NothingPrints(|file|); }
    }
  }

  lemma NothingPrints(line: int)
    ensures !Prints([], line)
  {
  }

  /** One pass over the file prints the blocks one after the other. */
  lemma {:induction false} PrintedIsSelected(file: Lines, bs: seq<Range>)
    requires Proper(bs) && Separated(bs)
    ensures Printed(file, bs) == Selected(file, bs)
  {
    if |file| == 0 {
      NothingSelected(bs);
    } else {
      PrintedIsSelected(file[..|file| - 1], bs);
      SelectedGrows(file, bs);
    }
  }

  lemma {:induction false} NothingSelected(bs: seq<Range>)
    requires Proper(bs)
    ensures Selected([], bs) == []
  {
    if |bs| > 0 {
      NothingSelected(bs[1..]);
    }
  }

  // ---- Handing the lines back

  /** Where line `line` of the file stands in the output, by the widths of the blocks before it. */
  function Offset(bs: seq<Range>, line: int): int {
    if |bs| == 0 then 0
    else if line > bs[0].end then bs[0].end - bs[0].start + 1 + Offset(bs[1..], line)
    else line - bs[0].start
  }

  function Cut(out: Lines, off: int, count: int): Option<Lines>
    requires 0 <= off && 0 < count
  {
    var lo, hi := Min(off, |out|), Min(off + count, |out|);
    if lo >= hi then None else Some(out[lo..hi])
  }

  /** The slice a range gets from the output; None if it is empty. */
  function Slice(out: Lines, bs: seq<Range>, r: Range): Option<Lines>
    requires 0 <= Offset(bs, r.start) && r.start <= r.end
  {
    Cut(out, Offset(bs, r.start), r.end - r.start + 1)
  }

  /** What reading the range by itself gives. */
  function Direct(file: Lines, r: Range): Option<Lines>
    requires 1 <= r.start <= r.end
  {
    if r.start > |file| then None else Some(file[r.start - 1..Min(r.end, |file|)])
  }

  lemma {:induction false} OffsetInside(bs: seq<Range>, j: nat, line: int)
    requires Proper(bs) && Separated(bs) && j < |bs| && Covers(bs[j], line)
    ensures Offset(bs, line) >= 0
    ensures bs[j].start < line ==> Offset(bs, line) == Offset(bs, line - 1) + 1
    decreases |bs|
  {
    if j > 0 {
      assert bs[0].end + 1 < bs[j].start;
      TailProper(bs);
      OffsetInside(bs[1..], j - 1, line);
    }
  }

  /** The output holds a covered line at its offset if the file has that line, and ends before it if not. */
  lemma {:induction false} SelectedAt(file: Lines, bs: seq<Range>, j: nat, line: int)
    requires Proper(bs) && Separated(bs) && j < |bs| && Covers(bs[j], line)
    ensures line <= |file| ==>
              0 <= Offset(bs, line) < |Selected(file, bs)| && Selected(file, bs)[Offset(bs, line)] == file[line - 1]
    ensures line > |file| ==> Offset(bs, line) >= |Selected(file, bs)|
    decreases |bs|
  {
    TailProper(bs);
    var part := Part(file, bs[0]);
    if j > 0 {
      assert bs[0].end + 1 < bs[j].start;
      SelectedAt(file, bs[1..], j - 1, line);
      assert line <= |file| ==> |part| == bs[0].end - bs[0].start + 1;
      OffsetInside(bs[1..], j - 1, line);
    } else if line > |file| {
      assert |bs| > 1 ==> bs[0].end + 1 < bs[1].start;
      SelectedBelow(file, bs[1..]);
    }
  }

  lemma {:induction false} OffsetRun(bs: seq<Range>, j: nat, start: int, d: nat)
    requires Proper(bs) && Separated(bs) && j < |bs| && bs[j].start <= start && start + d <= bs[j].end
    ensures Offset(bs, start + d) == Offset(bs, start) + d && Offset(bs, start) >= 0
    decreases d
  {
    OffsetInside(bs, j, start + d);
    if d > 0 {
      OffsetRun(bs, j, start, d - 1);
    }
  }

  /** Batched and direct reads agree on every range inside a block. */
  lemma SliceIsDirect(file: Lines, bs: seq<Range>, r: Range)
    requires Proper(bs) && Separated(bs) && 1 <= r.start <= r.end && Within(bs, r)
    ensures Offset(bs, r.start) >= 0
    ensures Slice(Selected(file, bs), bs, r) == Direct(file, r)
  {
    hide Selected, Offset, Proper, Separated;
    var j :| 0 <= j < |bs| && bs[j].start <= r.start && r.end <= bs[j].end;
    var out, n := Selected(file, bs), |file|;
    OutputRun(file, bs, j, r.start, 0);
    var off := Offset(bs, r.start);
    if r.start <= n {
      var last := Min(r.end, n);
      OutputRun(file, bs, j, r.start, last - r.start);
      if r.end > n {
        OutputRun(file, bs, j, r.start, n + 1 - r.start);
      }
      forall i | r.start - 1 <= i < last ensures out[off + (i - (r.start - 1))] == file[i] {
        OutputRun(file, bs, j, r.start, i - (r.start - 1));
      }
      assert out[off..off + (last - r.start) + 1] == file[r.start - 1..last];
    }
  }

  lemma OutputRun(file: Lines, bs: seq<Range>, j: nat, start: int, d: nat)
    requires Proper(bs) && Separated(bs) && j < |bs| && bs[j].start <= start && start + d <= bs[j].end
    ensures var k := Offset(bs, start) + d;
            && Offset(bs, start) >= 0 && start + d >= 1
            && (start + d <= |file| ==> k < |Selected(file, bs)| && Selected(file, bs)[k] == file[start + d - 1])
            && (start + d > |file| ==> k >= |Selected(file, bs)|)
  {
    hide Selected, Offset;
    OffsetRun(bs, j, start, d);
    SelectedAt(file, bs, j, start + d);
  }

  function Width(bs: seq<Range>, i: nat): int
    requires i <= |bs|
  {
    if i == 0 then 0 else Width(bs, i - 1) + (bs[i - 1].end - bs[i - 1].start + 1)
  }

  lemma {:induction false} WidthTail(bs: seq<Range>, i: nat)
    requires 0 < i <= |bs|
    ensures Width(bs, i) == bs[0].end - bs[0].start + 1 + Width(bs[1..], i - 1)
  {
    if i > 1 {
      WidthTail(bs, i - 1);
    }
  }

  lemma {:induction false} OffsetByWidth(bs: seq<Range>, i: nat, line: int)
    requires i < |bs| && Covers(bs[i], line) && forall k :: 0 <= k < i ==> bs[k].end < line
    ensures Offset(bs, line) == Width(bs, i) + (line - bs[i].start)
    decreases i
  {
    if i > 0 {
      WidthTail(bs, i);
      assert forall k :: 0 <= k < i - 1 ==> bs[1..][k] == bs[k + 1];
      OffsetByWidth(bs[1..], i - 1, line);
    }
  }

  /** The slicing walk: `pos` counts the output lines of the blocks left behind, which no later range can
      need. The branch for a range before the current block is kept as in the source. */
  method HandBack(out: Lines, blocks: seq<Range>, rs: seq<Range>) returns (res: seq<Option<Lines>>, strays: int)
    requires Proper(blocks) && Separated(blocks) && Proper(rs) && InOrder(rs)
    requires forall k :: 0 <= k < |rs| ==> Within(blocks, rs[k])
    ensures |res| == |rs| && strays == 0
    ensures forall k :: 0 <= k < |rs| ==> Offset(blocks, rs[k].start) >= 0 && res[k] == Slice(out, blocks, rs[k])
  {
    hide Offset, Width, Cut;
    res, strays := [], 0;
    var pos, bi := 0, 0;
    assert pos == Width(blocks, 0) by { NoWidth(blocks); }
    for k := 0 to |rs|
      invariant |res| == k && strays == 0 && 0 <= bi <= |blocks| && pos == Width(blocks, bi)
      invariant k > 0 ==> forall i :: 0 <= i < bi ==> blocks[i].end < rs[k - 1].start
      invariant k == 0 ==> bi == 0
      invariant forall j :: 0 <= j < k ==> Offset(blocks, rs[j].start) >= 0 && res[j] == Slice(out, blocks, rs[j])
    {
      var r := rs[k];
      ghost var jr: nat :| jr < |blocks| && blocks[jr].start <= r.start && r.end <= blocks[jr].end;
      assert k > 0 ==> rs[k - 1].start <= r.start;
      while bi < |blocks| && r.start > blocks[bi].end
        invariant 0 <= bi <= jr && pos == Width(blocks, bi)
        invariant forall i :: 0 <= i < bi ==> blocks[i].end < r.start
        decreases |blocks| - bi
      {
        WidthStep(blocks, bi);
        pos := pos + (blocks[bi].end - blocks[bi].start + 1);
        bi := bi + 1;
      }
      assert bi == jr;
      OffsetHere(blocks, bi, r.start);
      if bi == |blocks| || r.start < blocks[bi].start {
        res, strays := res + [None], strays + 1;
      } else {
        var piece := CutOut(out, pos + (r.start - blocks[bi].start), r.end - r.start + 1);
        res := res + [piece];
      }
    }
  }

  method CutOut(out: Lines, start: int, count: int) returns (piece: Option<Lines>)
    requires 0 <= start && 0 < count
    ensures piece == Cut(out, start, count)
  {
    var off, end := start, start + count;
    if off > |out| {
      off := |out|;
    }
    if end > |out| {
      end := |out|;
    }
    piece := if off >= end then None else Some(out[off..end]);
  }

  lemma NoWidth(bs: seq<Range>)
    ensures Width(bs, 0) == 0
  {
  }

  lemma WidthStep(bs: seq<Range>, i: nat)
    requires i < |bs|
    ensures Width(bs, i + 1) == Width(bs, i) + (bs[i].end - bs[i].start + 1)
  {
  }

  lemma OffsetHere(bs: seq<Range>, i: nat, line: int)
    requires Proper(bs) && Separated(bs) && i < |bs| && Covers(bs[i], line)
    ensures Offset(bs, line) == Width(bs, i) + (line - bs[i].start) && Offset(bs, line) >= 0
  {
    assert forall k :: 0 <= k < i ==> bs[k].end + 1 < bs[i].start;
    OffsetByWidth(bs, i, line);
    OffsetInside(bs, i, line);
  }

  // ---- From the command's text to the snippets of one file

  /** What sed writes: the lines, the last one without its newline if the file itself lacks it. */
  function OutText(ls: Lines, final: bool): string { Join(ls) + (if final && |ls| > 0 then "\n" else "") }

  function ReadBack(out: string): Lines { Split(DropNewline(out)) }

  /** The fate of a range, given what came back for its file. */
  function Outcome(back: Option<string>, bs: seq<Range>, r: Range): Option<Lines>
    requires 0 <= Offset(bs, r.start) && r.start <= r.end
  {
    if back.None? || '\0' in back.value || TrimSpace(back.value) == "" then None else Slice(ReadBack(back.value), bs, r)
  }

  method HydrateGroup(rs: seq<Range>, exec: seq<Range> -> Option<string>) returns (res: seq<Option<Lines>>)
    requires Proper(rs) && InOrder(rs)
    ensures |res| == |rs|
    ensures forall k :: 0 <= k < |rs| ==>
              Offset(Merge(rs), rs[k].start) >= 0 && res[k] == Outcome(exec(Merge(rs)), Merge(rs), rs[k])
  {
    MergeExact(rs);
    var blocks := MergeRanges(rs);
    forall k | 0 <= k < |rs| ensures Within(blocks, rs[k]) && Offset(blocks, rs[k].start) >= 0 {
      WithinMerged(rs, k);
    }
    var back := exec(blocks);
    if back.None? || '\0' in back.value || TrimSpace(back.value) == "" {
      res := seq(|rs|, _ => None);
      return;
    }
    hide Offset, Slice, Merge;
    var strays;
    res, strays := HandBack(ReadBack(back.value), blocks, rs);
  }

  lemma WithinMerged(rs: seq<Range>, k: nat)
    requires Proper(rs) && InOrder(rs) && k < |rs|
    ensures Within(Merge(rs), rs[k]) && Offset(Merge(rs), rs[k].start) >= 0
  {
    hide Merge, Offset, Separated;
    MergeExact(rs);
    var bs := Merge(rs);
    assert Within(bs, rs[k]);
    var j :| 0 <= j < |bs| && bs[j].start <= rs[k].start && rs[k].end <= bs[j].end;
    ProperAt(rs, k);
    OffsetInside(bs, j, rs[k].start);
  }

  lemma {:induction false} JoinEnd(ls: Lines)
    requires |ls| > 0 && ls[|ls| - 1] != "" && forall l :: l in ls ==> IsLine(l)
    ensures DropNewline(Join(ls)) == Join(ls)
    ensures |Join(ls)| > 0 && Join(ls)[|Join(ls)| - 1] != '\n'
  {
    if |ls| == 1 {
      assert ls[0] in ls && ls[0][|ls[0]| - 1] in ls[0];
      assert Join(ls) == ls[0];
    } else {
      JoinEnd(ls[1..]);
      assert Join(ls)[|Join(ls)| - 1] == Join(ls[1..])[|Join(ls[1..])| - 1];
    }
  }

  predicate GoodText(ls: Lines, final: bool) {
    |ls| > 0 && (forall l :: l in ls ==> IsLine(l)) && (final || ls[|ls| - 1] != "")
  }

  lemma ReadBackExact(ls: Lines, final: bool)
    requires GoodText(ls, final)
    ensures DropNewline(OutText(ls, final)) == Join(ls) && ReadBack(OutText(ls, final)) == ls
  {
    SplitJoin(ls);
    if final {
      assert OutText(ls, final)[..|Join(ls)|] == Join(ls);
    } else {
      JoinEnd(ls);
      assert OutText(ls, final) == Join(ls);
    }
  }

  /** The fast form agrees with the simple one: with sed's exact output, text and not all blank, every range
      of the group gets the lines of its own direct read, and is dropped exactly when it starts past the
      end of the file. */
  lemma BatchedIsDirect(file: Lines, rs: seq<Range>, final: bool, k: nat)
    requires Proper(rs) && InOrder(rs) && k < |rs|
    requires GoodText(Printed(file, Merge(rs)), final)
    requires var t := OutText(Printed(file, Merge(rs)), final); '\0' !in t && !Blank(t)
    ensures Offset(Merge(rs), rs[k].start) >= 0
    ensures Outcome(Some(OutText(Printed(file, Merge(rs)), final)), Merge(rs), rs[k]) == Direct(file, rs[k])
  {
    hide Offset, Slice, Merge, Printed;
    var bs := Merge(rs);
    MergeExact(rs);
    WithinMerged(rs, k);
    var t := OutText(Printed(file, bs), final);
    BlankTrimsAway(t);
    ReadBackExact(Printed(file, bs), final);
    PrintedIsSelected(file, bs);
    SliceIsDirect(file, bs, rs[k]);
  }

  /** A selection of blank lines only is dropped as a whole, although a direct read would have found lines. */
  lemma AllBlankIsDropped(file: Lines, rs: seq<Range>, final: bool, k: nat)
    requires Proper(rs) && InOrder(rs) && k < |rs| && Blank(OutText(Printed(file, Merge(rs)), final))
    ensures Offset(Merge(rs), rs[k].start) >= 0
    ensures Outcome(Some(OutText(Printed(file, Merge(rs)), final)), Merge(rs), rs[k]) == None
    ensures Direct(file, rs[k]) == None <==> rs[k].start > |file|
  {
    WithinMerged(rs, k);
    BlankTrimsAway(OutText(Printed(file, Merge(rs)), final));
  }

  // ---- The executor that trims

  lemma {:induction false} LineAt(file: Lines, bs: seq<Range>, t: nat) returns (j: nat, line: int)
    requires Proper(bs) && Separated(bs) && t < |Selected(file, bs)|
    ensures j < |bs| && Covers(bs[j], line) && line <= |file| && Offset(bs, line) == t
    decreases |bs|
  {
    var part := Part(file, bs[0]);
    if t < |part| {
      j, line := 0, bs[0].start + t;
    } else {
      TailProper(bs);
      if |bs| > 1 && |file| < bs[1].start {
        SelectedBelow(file, bs[1..]);
      }
      j, line := LineAt(file, bs[1..], t - |part|);
      assert bs[0].end + 1 < bs[1..][j].start == bs[j + 1].start;
      j := j + 1;
    }
  }

  /** Output lines that serve every range as the exact ones do are at least as many, and the same as far
      as the exact ones go. */
  lemma ServesAll(file: Lines, bs: seq<Range>, rs: seq<Range>, other: Lines, t: nat)
    requires Proper(bs) && Separated(bs) && SameLines(bs, rs) && Proper(rs) && t < |Selected(file, bs)|
    requires forall k :: 0 <= k < |rs| ==>
               Offset(bs, rs[k].start) >= 0 && Slice(other, bs, rs[k]) == Slice(Selected(file, bs), bs, rs[k])
    ensures t < |other| && other[t] == Selected(file, bs)[t]
  {
    hide Selected, Offset;
    var j, line := LineAt(file, bs, t);
    var k :| 0 <= k < |rs| && Covers(rs[k], line);
    var r := rs[k];
    var i :| 0 <= i < |bs| && bs[i].start <= r.start && r.end <= bs[i].end;
    OffsetRun(bs, i, r.start, line - r.start);
    CutAt(Selected(file, bs), other, Offset(bs, r.start), r.end - r.start + 1, line - r.start);
  }

  lemma CutAt(a: Lines, b: Lines, off: nat, count: nat, d: nat)
    requires d < count && off + d < |a| && Cut(b, off, count) == Cut(a, off, count)
    ensures off + d < |b| && b[off + d] == a[off + d]
  {
    var x := a[off..Min(off + count, |a|)];
    assert Cut(a, off, count) == Some(x);
    assert x[d] == a[off + d];
    var y := b[Min(off, |b|)..Min(off + count, |b|)];
    assert y == x;
    assert y[d] == b[off + d];
  }

  lemma {:induction false} TrimOfDropped(t: string)
    ensures TrimSpace(DropNewline(t)) == TrimSpace(t)
  {
    if |t| > 0 && t[|t| - 1] == '\n' {
      var x := t[..|t| - 1];
      assert t == x + "\n" && IsSpace('\n');
      TrimLeftAppend(x);
      if TrimLeft(x) != "" {
        assert (TrimLeft(x) + "\n")[..|TrimLeft(x)|] == TrimLeft(x);
      }
    }
  }

  lemma {:induction false} TrimLeftAppend(x: string)
    ensures TrimLeft(x + "\n") == if TrimLeft(x) == "" then "" else TrimLeft(x) + "\n"
  {
    if |x| == 0 {
      assert x + "\n" == "\n" && IsSpace('\n');
      assert TrimLeft("\n"[1..]) == "";
    } else {
      assert (x + "\n")[1..] == x[1..] + "\n";
      if IsSpace(x[0]) {
        TrimLeftAppend(x[1..]);
      }
    }
  }

  /** The executor in use trims what it returns. The ranges of a group then still all get their lines
      exactly when the selection neither starts nor ends in blank space, its last newline aside. */
  lemma TrimmedServesIff(file: Lines, rs: seq<Range>, final: bool)
    requires Proper(rs) && InOrder(rs) && GoodText(Printed(file, Merge(rs)), final)
    requires var t := OutText(Printed(file, Merge(rs)), final); '\0' !in TrimSpace(t) && !Blank(t)
    ensures forall k :: 0 <= k < |rs| ==> Offset(Merge(rs), rs[k].start) >= 0
    ensures var t := OutText(Printed(file, Merge(rs)), final);
            (forall k :: 0 <= k < |rs| ==> Outcome(Some(TrimSpace(t)), Merge(rs), rs[k]) == Direct(file, rs[k]))
            <==> TrimSpace(t) == DropNewline(t)
  {
    hide Offset, Slice, Merge, Printed, Selected, Separated, InOrder, SameLines, TrimSpace, Split, Join;
    var bs, ls := Merge(rs), Printed(file, Merge(rs));
    var t := OutText(ls, final);
    var u := TrimSpace(t);
    MergeExact(rs);
    PrintedIsSelected(file, bs);
    ReadBackExact(ls, final);
    TrimAddsNoLine(t);
    BlankTrimsAway(t);
    TrimTwice(t);
    forall k | 0 <= k < |rs| ensures Offset(bs, rs[k].start) >= 0 && Slice(ls, bs, rs[k]) == Direct(file, rs[k]) {
      WithinMerged(rs, k);
      ProperAt(rs, k);
      SliceIsDirect(file, bs, rs[k]);
    }
    if forall k :: 0 <= k < |rs| ==> Outcome(Some(u), bs, rs[k]) == Direct(file, rs[k]) {
      forall i | 0 <= i < |ls| ensures i < |ReadBack(u)| && ReadBack(u)[i] == ls[i] {
        ServesAll(file, bs, rs, ReadBack(u), i);
      }
      FewerLines(t, ls, final);
      assert ReadBack(u) == ls by {
        assert |ls| > 0 && |ReadBack(u)| >= |ls|;
      }
      JoinSplit(u);
    }
  }

  lemma ProperAt(rs: seq<Range>, k: nat)
    requires Proper(rs) && k < |rs|
    ensures 1 <= rs[k].start <= rs[k].end
  {
  }

  lemma TrimTwice(t: string)
    requires !Blank(t)
    ensures TrimSpace(TrimSpace(t)) != "" && TrimSpace(t) != ""
  {
    BlankTrimsAway(t);
    var u := TrimSpace(t);
    TrimRightIsFront(TrimLeft(t));
    BlankTrimsAway(u);
    assert u[|u| - 1] in u;
  }

  lemma FewerLines(t: string, ls: Lines, final: bool)
    requires GoodText(ls, final) && t == OutText(ls, final)
    ensures |ReadBack(TrimSpace(t))| <= |ls|
  {
    ReadBackExact(ls, final);
    TrimOfDropped(t);
    TrimAddsNoLine(DropNewline(t));
    SplitCount(DropNewline(t));
    SplitCount(TrimSpace(t));
    SplitJoin(ls);
  }
}
