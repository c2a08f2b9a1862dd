/** Paged reads of one project's log (server/internal/obs/store.go): filter, order by sequence number, cut a
    page before, after or at the tail. */
module ObsRead {
  import opened Sorting

  datatype Entry = Entry(seqNo: nat, text: string)

  predicate SeqLe(a: Entry, b: Entry) { a.seqNo <= b.seqNo }

  function Kept(log: seq<Entry>, keep: Entry -> bool): seq<Entry> {
    if |log| == 0 then []
    else Kept(log[..|log| - 1], keep) + (if keep(log[|log| - 1]) then [log[|log| - 1]] else [])
  }

  function Ordered(log: seq<Entry>, keep: Entry -> bool): seq<Entry> { Sort(Kept(log, keep), SeqLe) }

  function Limit(limit: int): nat { if limit <= 0 then 200 else if limit > 1000 then 1000 else limit }

  function Newest(all: seq<Entry>, n: nat): seq<Entry> { if |all| > n then all[|all| - n..] else all }

  function Oldest(all: seq<Entry>, n: nat): seq<Entry> { if |all| > n then all[..n] else all }

  function Over(k: int): Entry -> bool { (e: Entry) => e.seqNo > k }

  function Under(k: int): Entry -> bool { (e: Entry) => e.seqNo < k }

  function Above(all: seq<Entry>, k: int): seq<Entry> { Kept(all, Over(k)) }

  function Below(all: seq<Entry>, k: int): seq<Entry> { Kept(all, Under(k)) }

  /** One page of an ordered listing. */
  function Page(all: seq<Entry>, after: int, before: int, limit: int): seq<Entry> {
    if before > 0 then Newest(Below(all, before), Limit(limit))
    else if after > 0 then Oldest(Above(all, after), Limit(limit))
    else Newest(all, Limit(limit))
  }

  lemma KeptStep(log: seq<Entry>, keep: Entry -> bool, i: nat)
    requires i < |log|
    ensures Kept(log[..i + 1], keep) == Kept(log[..i], keep) + (if keep(log[i]) then [log[i]] else [])
  {
    assert log[..i + 1][..i] == log[..i];
  }

  method Filter(log: seq<Entry>, keep: Entry -> bool) returns (r: seq<Entry>)
    ensures r == Kept(log, keep)
  {
    r := [];
    for i := 0 to |log|
      invariant r == Kept(log[..i], keep)
    {
      KeptStep(log, keep, i);
      if keep(log[i]) {
        r := r + [log[i]];
      }
    }
    assert log[..|log|] == log;
  }

  lemma {:induction false} KeptGrows(log: seq<Entry>, keep: Entry -> bool, i: nat)
    requires i <= |log|
    ensures Kept(log[..i], keep) <= Kept(log, keep)
    decreases |log|
  {
    if i < |log| {
      KeptGrows(log[..|log| - 1], keep, i);
      assert log[..|log| - 1][..i] == log[..i];
    } else {
      assert log[..i] == log;
    }
  }

  /** The newer branch stops scanning once the page is full. */
  method FirstAbove(all: seq<Entry>, after: int, n: nat) returns (r: seq<Entry>)
    requires n > 0
    ensures r == Oldest(Above(all, after), n)
  {
    ghost var above := Over(after);
    r := [];
    var i := 0;
    while i < |all|
      invariant i <= |all| && r == Kept(all[..i], above) && |r| < n
    {
      KeptStep(all, above, i);
      if all[i].seqNo > after {
        r := r + [all[i]];
        if |r| >= n {
          KeptGrows(all, above, i + 1);
          return;
        }
      }
      i := i + 1;
    }
    assert all[..|all|] == all;
  }

  /** Read, once the lines are loaded: the page and its two cursors. */
  method Read(log: seq<Entry>, after: int, before: int, limit: int, keep: Entry -> bool)
    returns (page: seq<Entry>, firstSeq: nat, lastSeq: nat)
    ensures page == Page(Ordered(log, keep), after, before, limit)
    ensures |page| == 0 ==> firstSeq == lastSeq == 0
    ensures |page| > 0 ==> firstSeq == page[0].seqNo && lastSeq == page[|page| - 1].seqNo
  {
    hide Kept, Sort;
    var n := if limit <= 0 then 200 else limit;
    if n > 1000 {
      n := 1000;
    }
    var kept := Filter(log, keep);
    page := Sort(kept, SeqLe);
    if before > 0 {
      page := Filter(page, Under(before));
      if |page| > n {
        page := page[|page| - n..];
      }
    } else if after > 0 {
      page := FirstAbove(page, after, n);
    } else if |page| > n {
      page := page[|page| - n..];
    }
    if |page| == 0 {
      firstSeq, lastSeq := 0, 0;
    } else {
      firstSeq, lastSeq := page[0].seqNo, page[|page| - 1].seqNo;
    }
  }

  // ---- The ordered listing

  predicate Ascending(all: seq<Entry>) { forall i, j :: 0 <= i < j < |all| ==> all[i].seqNo < all[j].seqNo }

  predicate Distinct(log: seq<Entry>) { forall i, j :: 0 <= i < j < |log| ==> log[i].seqNo != log[j].seqNo }

  lemma {:induction false} KeptMembers(log: seq<Entry>, keep: Entry -> bool)
    ensures forall e :: e in Kept(log, keep) <==> e in log && keep(e)
    ensures Distinct(log) ==> Distinct(Kept(log, keep))
  {
    if |log| > 0 {
      var n := |log| - 1;
      KeptMembers(log[..n], keep);
      assert log == log[..n] + [log[n]];
      if Distinct(log) {
        forall e | e in Kept(log[..n], keep) ensures e.seqNo != log[n].seqNo {
          var i :| 0 <= i < n && log[..n][i] == e;
          assert log[i] == e;
        }
      }
    }
  }

  /** On a log whose sequence numbers differ the listing holds the matching entries, once each, ascending. */
  lemma OrderedListing(log: seq<Entry>, keep: Entry -> bool)
    requires Distinct(log)
    ensures var all := Ordered(log, keep);
            Ascending(all) && forall e :: e in all <==> e in log && keep(e)
  {
    var kept := Kept(log, keep);
    KeptMembers(log, keep);
    SortSorted(kept, SeqLe);
    SortMembers(kept, SeqLe);
    SortKeepsDistinct(kept, SeqLe);
    var all := Ordered(log, keep);
    forall i, j | 0 <= i < j < |all| ensures all[i].seqNo < all[j].seqNo {
      assert all[i] in kept && all[j] in kept;
    }
  }

  // ---- Following the cursors

  /** In an ascending listing the entries below a bound are a prefix, those from it on a suffix. */
  lemma {:induction false} BelowIsPrefix(all: seq<Entry>, k: int, i: nat)
    requires Ascending(all) && i <= |all|
    requires forall j :: 0 <= j < i ==> all[j].seqNo < k
    requires forall j :: i <= j < |all| ==> all[j].seqNo >= k
    ensures Below(all, k) == all[..i]
  {
    if |all| > 0 {
      var n := |all| - 1;
      if i <= n {
        BelowIsPrefix(all[..n], k, i);
        assert all[..n][..i] == all[..i] && !Under(k)(all[n]);
      } else {
        BelowIsPrefix(all[..n], k, n);
        assert all[..n] + [all[n]] == all[..i];
      }
    }
  }

  lemma {:induction false} AboveIsSuffix(all: seq<Entry>, k: int, i: nat)
    requires Ascending(all) && i <= |all|
    requires forall j :: 0 <= j < i ==> all[j].seqNo <= k
    requires forall j :: i <= j < |all| ==> all[j].seqNo > k
    ensures Above(all, k) == all[i..]
  {
    if |all| > 0 {
      var n := |all| - 1;
      if i <= n {
        AboveIsSuffix(all[..n], k, i);
        assert all[..n][i..] + [all[n]] == all[i..];
      } else {
        AboveIsSuffix(all[..n], k, n);
        assert all[..n][n..] == [] && all[i..] == [] && !Over(k)(all[n]);
      }
    }
  }

  /** What a page by `before` is: the entries just below the cursor. */
  lemma PageBefore(all: seq<Entry>, after: int, before: int, limit: int, i: nat)
    requires Ascending(all) && i <= |all| && before > 0
    requires forall j :: 0 <= j < i ==> all[j].seqNo < before
    requires forall j :: i <= j < |all| ==> all[j].seqNo >= before
    ensures Page(all, after, before, limit) == all[if i > Limit(limit) then i - Limit(limit) else 0..i]
  {
    BelowIsPrefix(all, before, i);
  }

  lemma PageAfter(all: seq<Entry>, after: int, before: int, limit: int, i: nat)
    requires Ascending(all) && i <= |all| && before <= 0 < after
    requires forall j :: 0 <= j < i ==> all[j].seqNo <= after
    requires forall j :: i <= j < |all| ==> all[j].seqNo > after
    ensures Page(all, after, before, limit) == all[i..if |all| - i > Limit(limit) then i + Limit(limit) else |all|]
  {
    AboveIsSuffix(all, after, i);
  }

  lemma PageTail(all: seq<Entry>, limit: int)
    ensures Page(all, 0, 0, limit) == all[if |all| > Limit(limit) then |all| - Limit(limit) else 0..|all|]
  {
  }

  /** The reader's loop: ask for what follows the last entry seen until a page comes back empty. */
  function Forward(all: seq<Entry>, after: nat, limit: int, requests: nat): seq<Entry>
    decreases requests
  {
    var page := Page(all, after, 0, limit);
    if |page| == 0 || requests == 0 then [] else page + Forward(all, page[|page| - 1].seqNo, limit, requests - 1)
  }

  /** Ask for what precedes the first entry seen, starting at the tail. */
  function Backward(all: seq<Entry>, before: nat, limit: int, requests: nat): seq<Entry>
    decreases requests
  {
    var page := Page(all, 0, before, limit);
    if |page| == 0 || requests == 0 then [] else Backward(all, page[0].seqNo, limit, requests - 1) + page
  }

  /** Reading on from the i-th entry of the listing yields exactly the rest of it; no more requests are needed
      than there are entries left. */
  lemma {:induction false} ForwardFrom(all: seq<Entry>, after: nat, i: nat, limit: int, requests: nat)
    requires Ascending(all) && i <= |all| && after > 0 && requests >= |all| - i
    requires forall j :: 0 <= j < i ==> all[j].seqNo <= after
    requires forall j :: i <= j < |all| ==> all[j].seqNo > after
    ensures Forward(all, after, limit, requests) == all[i..]
    decreases requests
  {
    hide Page;
    PageAfter(all, after, 0, limit, i);
    if i < |all| {
      var page := Page(all, after, 0, limit);
      var k := i + |page|;
      ForwardFrom(all, all[k - 1].seqNo, k, limit, requests - 1);
      assert all[i..] == all[i..k] + all[k..];
    }
  }

  lemma {:induction false} BackwardFrom(all: seq<Entry>, before: nat, i: nat, limit: int, requests: nat)
    requires Ascending(all) && i <= |all| && requests >= i
    requires forall j :: 0 <= j < |all| ==> all[j].seqNo >= 1
    requires before == 0 ==> i == |all|
    requires before > 0 ==> forall j :: 0 <= j < i ==> all[j].seqNo < before
    requires before > 0 ==> forall j :: i <= j < |all| ==> all[j].seqNo >= before
    ensures Backward(all, before, limit, requests) == all[..i]
    decreases requests
  {
    hide Page;
    if before > 0 {
      PageBefore(all, 0, before, limit, i);
    } else {
      PageTail(all, limit);
    }
    var page := Page(all, 0, before, limit);
    var k := i - |page|;
    assert page == all[k..i];
    if i > 0 {
      BackwardFrom(all, all[k].seqNo, k, limit, requests - 1);
      assert all[..i] == all[..k] + all[k..i];
    }
  }

  lemma Split(all: seq<Entry>, k: int) returns (i: nat)
    requires Ascending(all)
    ensures i <= |all|
    ensures forall j :: 0 <= j < i ==> all[j].seqNo <= k
    ensures forall j :: i <= j < |all| ==> all[j].seqNo > k
  {
    i := 0;
    while i < |all| && all[i].seqNo <= k
      invariant i <= |all| && forall j :: 0 <= j < i ==> all[j].seqNo <= k
    {
      i := i + 1;
    }
  }

  /** Paging by `after` from any positive cursor, with any limit, yields every entry above it once, in order. */
  lemma ForwardSeesAllAbove(all: seq<Entry>, after: nat, limit: int)
    requires Ascending(all) && after > 0
    ensures Forward(all, after, limit, |all|) == Above(all, after)
  {
    var i := Split(all, after);
    ForwardFrom(all, after, i, limit, |all|);
    AboveIsSuffix(all, after, i);
  }

  /** Paging by `before` from the tail yields the whole listing when every number is positive. */
  lemma BackwardSeesAll(all: seq<Entry>, limit: int)
    requires Ascending(all) && forall j :: 0 <= j < |all| ==> all[j].seqNo >= 1
    ensures Backward(all, 0, limit, |all|) == all
  {
    BackwardFrom(all, 0, |all|, limit, |all|);
    assert all[..|all|] == all;
  }

  /** Paging by `after` from zero is not paging from the start: zero asks for the tail, so a reader who starts
      there sees the whole listing exactly when it fits one page. */
  lemma ForwardFromZero(all: seq<Entry>, limit: int)
    requires Ascending(all) && forall j :: 0 <= j < |all| ==> all[j].seqNo >= 1
    ensures Forward(all, 0, limit, |all| + 1) == Newest(all, Limit(limit))
    ensures Forward(all, 0, limit, |all| + 1) == all <==> |all| <= Limit(limit)
  {
    hide Ascending, Page, Newest;
    PageTail(all, limit);
    NewestIs(all, Limit(limit));
    var page := Page(all, 0, 0, limit);
    if |all| > 0 {
      var last := page[|page| - 1].seqNo;
      assert page[|page| - 1] == all[|all| - 1];
      assert Forward(all, last, limit, |all|) == [] by { NothingAfterLast(all, limit); }
      assert page + [] == page;
    }
  }

  lemma NewestIs(all: seq<Entry>, n: nat)
    ensures Newest(all, n) == all[if |all| > n then |all| - n else 0..|all|]
  {
  }

  lemma NothingAfterLast(all: seq<Entry>, limit: int)
    requires Ascending(all) && |all| > 0 && all[|all| - 1].seqNo >= 1
    ensures Forward(all, all[|all| - 1].seqNo, limit, |all|) == []
  {
    ForwardFrom(all, all[|all| - 1].seqNo, |all|, limit, |all|);
  }

  /** A page holds 200 entries, or as many up to 1000 as were asked for, unless it reaches the end, and skips nothing
      between the cursor and itself; without a cursor it is the newest. */
  lemma PageIsAdjacent(all: seq<Entry>, after: int, before: int, limit: int, e: Entry)
    requires Ascending(all) && e in all
    ensures var page := Page(all, after, before, limit);
            var n := if limit <= 0 then 200 else if limit > 1000 then 1000 else limit;
            && |page| <= n && Ascending(page)
            && (before > 0 ==> (e in page <==> e.seqNo < before && (|page| == n ==> page[0].seqNo <= e.seqNo)))
            && (before <= 0 < after ==>
                  (e in page <==> e.seqNo > after && (|page| == n ==> e.seqNo <= page[|page| - 1].seqNo)))
            && (before <= 0 && after <= 0 ==> (e in page <==> (|page| == n ==> page[0].seqNo <= e.seqNo)))
  {
    hide Page, Ascending;
    PageAscends(all, after, before, limit);
    if before > 0 {
      PageBeforeIsAdjacent(all, after, before, limit, e);
    } else if after > 0 {
      PageAfterIsAdjacent(all, after, before, limit, e);
    } else {
      PageTailIsAdjacent(all, after, before, limit, e);
    }
  }

  lemma PageAscends(all: seq<Entry>, after: int, before: int, limit: int)
    requires Ascending(all)
    ensures Ascending(Page(all, after, before, limit))
  {
    if before > 0 {
      var i := Split(all, before - 1);
      PageBefore(all, after, before, limit, i);
    } else if after > 0 {
      var i := Split(all, after);
      PageAfter(all, after, before, limit, i);
    }
  }

  lemma PageTailIsAdjacent(all: seq<Entry>, after: int, before: int, limit: int, e: Entry)
    requires Ascending(all) && e in all && before <= 0 && after <= 0
    ensures var page := Page(all, after, before, limit);
            |page| <= Limit(limit) && (e in page <==> (|page| == Limit(limit) ==> page[0].seqNo <= e.seqNo))
  {
    var page := Page(all, after, before, limit);
    assert page == all[|all| - |page|..|all|];
    SliceMember(all, |all| - |page|, |all|, e);
    assert all[..|all|] == all;
  }

  lemma PageBeforeIsAdjacent(all: seq<Entry>, after: int, before: int, limit: int, e: Entry)
    requires Ascending(all) && e in all && before > 0
    ensures var page := Page(all, after, before, limit);
            && |page| <= Limit(limit)
            && (e in page <==> e.seqNo < before && (|page| == Limit(limit) ==> page[0].seqNo <= e.seqNo))
  {
    hide Page;
    var i := Split(all, before - 1);
    PageBefore(all, after, before, limit, i);
    SliceMember(all, i - |Page(all, after, before, limit)|, i, e);
  }

  lemma PageAfterIsAdjacent(all: seq<Entry>, after: int, before: int, limit: int, e: Entry)
    requires Ascending(all) && e in all && before <= 0 < after
    ensures var page := Page(all, after, before, limit);
            && |page| <= Limit(limit)
            && (e in page <==> e.seqNo > after && (|page| == Limit(limit) ==> e.seqNo <= page[|page| - 1].seqNo))
  {
    hide Page;
    var i := Split(all, after);
    PageAfter(all, after, before, limit, i);
    SliceMember(all, i, i + |Page(all, after, before, limit)|, e);
  }

  lemma SliceMember(all: seq<Entry>, lo: nat, hi: nat, e: Entry)
    requires Ascending(all) && lo <= hi <= |all| && e in all
    ensures e in all[lo..hi] <==> lo < hi && all[lo].seqNo <= e.seqNo <= all[hi - 1].seqNo
    ensures hi < |all| ==> (e.seqNo < all[hi].seqNo <==> e in all[..hi])
    ensures lo < |all| ==> (e.seqNo < all[lo].seqNo <==> e in all[..lo])
  {
    var x :| 0 <= x < |all| && all[x] == e;
    if lo <= x < hi {
      assert all[lo..hi][x - lo] == e;
    }
    if x < hi {
      assert all[..hi][x] == e;
    }
    if x < lo {
      assert all[..lo][x] == e;
    }
  }

  /** A tail that polls a growing log: the next poll returns exactly the new entries if and only if every new
      entry is numbered above all it has seen. */
  lemma PollSeesExactlyNewIff(seen: seq<Entry>, now: seq<Entry>, limit: int)
    requires Ascending(seen) && Ascending(now) && |seen| > 0 && seen[|seen| - 1].seqNo > 0
    requires forall e :: e in seen ==> e in now
    ensures (forall e :: e in Forward(now, seen[|seen| - 1].seqNo, limit, |now|) <==> e in now && e !in seen)
            <==> (forall e :: e in now && e !in seen ==> e.seqNo > seen[|seen| - 1].seqNo)
  {
    var last := seen[|seen| - 1].seqNo;
    ForwardSeesAllAbove(now, last, limit);
    KeptMembers(now, Over(last));
    forall e | e in seen ensures e.seqNo <= last {
      var i :| 0 <= i < |seen| && seen[i] == e;
    }
  }
}
