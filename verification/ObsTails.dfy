/** Which lines paged reads of the log deliver, hide or miss (server/internal/obs/store.go), over every run. */
module ObsTails {
  import opened ObsRead
  import opened ObsRuns
  import opened ObsStore

  // ---- What readers collect

  /** What a reader collects by following cursors to the end after any run, with any filter and page size: from
      the tail back, every kept matching entry once in order; from a cursor on, every one above it. */
  lemma CursorsSeeEverything(steps: seq<Step>, keep: Entry -> bool, limit: int, after: nat)
    requires after > 0
    ensures var log := Entries(Readable(Run(FRESH, steps)));
            var all := Ordered(log, keep);
            && Ascending(all) && (forall e :: e in all <==> e in log && keep(e))
            && Backward(all, 0, limit, |all|) == all
            && Ascending(Forward(all, after, limit, |all|))
            && (forall e :: e in Forward(all, after, limit, |all|) <==> e in log && keep(e) && e.seqNo > after)
  {
    hide Ordered, Backward, Forward, Page, Kept, Run, Ascending, Readable;
    var log := Entries(Readable(Run(FRESH, steps)));
    LogIsNumbered(steps);
    OrderedListing(log, keep);
    var all := Ordered(log, keep);
    forall j | 0 <= j < |all| ensures all[j].seqNo >= 1 {
      assert all[j] in log;
    }
    BackwardSeesAll(all, limit);
    ForwardSeesAllAbove(all, after, limit);
    KeptMembers(all, Over(after));
    AscendingAbove(all, after);
  }

  lemma LogIsNumbered(steps: seq<Step>)
    ensures var log := Entries(Readable(Run(FRESH, steps)));
            Distinct(log) && forall e :: e in log ==> e.seqNo >= 1
  {
    hide Run, IsSuffix, Bytes, DistinctSeqs, Distinct, Readable;
    FilesHoldNewest(steps);
    EntriesNumbered(Readable(Run(FRESH, steps)));
  }

  lemma EntriesNumbered(files: seq<Line>)
    requires DistinctSeqs(files) && forall l :: l in files ==> l.entry.seqNo >= 1
    ensures Distinct(Entries(files)) && forall e :: e in Entries(files) ==> e.seqNo >= 1
  {
    var log := Entries(files);
    forall e | e in log ensures e.seqNo >= 1 {
      var i :| 0 <= i < |log| && log[i] == e;
      assert files[i] in files;
    }
  }

  lemma AscendingAbove(all: seq<Entry>, k: int)
    requires Ascending(all)
    ensures Ascending(Above(all, k))
  {
    var i := Split(all, k);
    AboveIsSuffix(all, k, i);
  }

  lemma {:induction false} ForwardAbove(all: seq<Entry>, after: nat, limit: int, requests: nat)
    requires after > 0
    ensures forall e :: e in Forward(all, after, limit, requests) ==> e.seqNo > after
    decreases requests
  {
    KeptMembers(all, Over(after));
    var page := Page(all, after, 0, limit);
    assert forall e :: e in page ==> e in Above(all, after) && e.seqNo > after;
    if |page| > 0 && requests > 0 {
      assert page[|page| - 1] in page;
      ForwardAbove(all, page[|page| - 1].seqNo, limit, requests - 1);
    }
  }

  // ---- Lines that no read finds

  /** A line stands at or behind a piece that the scanner's buffer does not take. */
  ghost predicate Behind(ps: seq<Piece>) {
    exists i, j :: 0 <= i <= j < |ps| && PieceBytes(ps[i]) > MAX_LINE && ps[j].Whole?
  }

  ghost predicate Hides(f: LogFile) {
    Behind(f.pieces) || (f.tail.Cut? && (!Clear(f.pieces) || f.tail.line.bytes > MAX_LINE))
  }

  lemma BehindStep(ps: seq<Piece>)
    requires |ps| > 0
    ensures Behind(ps) <==> Behind(ps[..|ps| - 1]) || (ps[|ps| - 1].Whole? && !Clear(ps))
  {
    var n := |ps| - 1;
    if Behind(ps[..n]) {
      var i, j :| 0 <= i <= j < n && PieceBytes(ps[..n][i]) > MAX_LINE && ps[..n][j].Whole?;
      assert PieceBytes(ps[i]) > MAX_LINE && ps[j].Whole?;
    }
    if Behind(ps) {
      var i, j :| 0 <= i <= j < |ps| && PieceBytes(ps[i]) > MAX_LINE && ps[j].Whole?;
      assert j < n ==> PieceBytes(ps[..n][i]) > MAX_LINE && ps[..n][j].Whole?;
    }
  }

  lemma {:induction false} FoundIff(ps: seq<Piece>)
    ensures Found(ps) <= Lines(ps) && (Found(ps) == Lines(ps) <==> !Behind(ps))
  {
    hide Behind, Clear;
    if |ps| > 0 {
      FoundIff(ps[..|ps| - 1]);
      BehindStep(ps);
      if Clear(ps) {
        ClearFront(ps);
      }
    } else {
      NothingBehind(ps);
    }
  }

  lemma NothingBehind(ps: seq<Piece>)
    requires |ps| == 0
    ensures !Behind(ps)
  {
  }

  lemma ClearFront(ps: seq<Piece>)
    requires |ps| > 0 && Clear(ps)
    ensures Clear(ps[..|ps| - 1]) && !Behind(ps[..|ps| - 1])
  {
    var front := ps[..|ps| - 1];
    assert forall i :: 0 <= i < |front| ==> front[i] == ps[i];
  }

  lemma ScannedIff(f: LogFile)
    ensures Scanned(f) <= Contents(f) && (Scanned(f) == Contents(f) <==> !Hides(f))
    ensures forall l :: l in Scanned(f) ==> l in Contents(f)
  {
    hide Behind, Found, Lines;
    FoundIff(f.pieces);
    if Clear(f.pieces) {
      ClearIsFound(f.pieces);
    }
  }

  lemma ClearIsFound(ps: seq<Piece>)
    requires Clear(ps)
    ensures !Behind(ps)
  {
  }

  /** In every state, all lines in the two files are found, in their order, if and only if neither file hides one. */
  lemma AllFoundIff(s: State)
    ensures Readable(s) == Held(s) <==> !Hides(s.files.older) && !Hides(s.files.current)
    ensures |Readable(s)| <= |Held(s)| && forall l :: l in Readable(s) ==> l in Held(s)
  {
    hide Hides, Scanned, Contents;
    ScannedIff(s.files.older);
    ScannedIff(s.files.current);
    if Readable(s) == Held(s) {
      assert |Scanned(s.files.older)| == |Contents(s.files.older)|;
      assert Scanned(s.files.older) == Readable(s)[..|Scanned(s.files.older)|];
      assert Scanned(s.files.current) == Readable(s)[|Scanned(s.files.older)|..];
    }
  }

  const ANY := (e: Entry) => true

  lemma {:induction false} KeptAny(log: seq<Entry>)
    ensures Kept(log, ANY) == log
  {
    if |log| > 0 {
      KeptAny(log[..|log| - 1]);
      assert log == log[..|log| - 1] + [log[|log| - 1]];
    }
  }

  /** So after any run, what paging back from the tail collects is every line of the two files, each once, if and only
      if neither file hides one. */
  lemma PagesHoldAllIff(steps: seq<Step>, limit: int)
    ensures var s := Run(FRESH, steps);
            var all := Ordered(Entries(Readable(s)), ANY);
            multiset(Backward(all, 0, limit, |all|)) == multiset(Entries(Held(s)))
            <==> !Hides(s.files.older) && !Hides(s.files.current)
  {
    hide Run, Hides, Readable, Held, Backward, Ascending;
    var s := Run(FRESH, steps);
    var log := Entries(Readable(s));
    AllFoundIff(s);
    CursorsSeeEverything(steps, ANY, limit, 1);
    KeptAny(log);
    var all := Ordered(log, ANY);
    assert multiset(all) == multiset(log);
    if multiset(all) == multiset(Entries(Held(s))) {
      assert |multiset(all)| == |all| && |multiset(Entries(Held(s)))| == |Held(s)|;
      SameLength(s);
    }
  }

  lemma SameLength(s: State)
    requires |Readable(s)| == |Held(s)|
    ensures Readable(s) == Held(s)
  {
    hide Hides, Scanned, Contents;
    ScannedIff(s.files.older);
    ScannedIff(s.files.current);
  }

  // ---- Without disk failures

  /** The files hold whole lines and nothing else. */
  predicate Clean(f: LogFile) { f.tail.NoTail? && forall i :: 0 <= i < |f.pieces| ==> f.pieces[i].Whole? }

  predicate CleanStore(s: State) { Clean(s.files.older) && Clean(s.files.current) && !s.of.broken }

  /** The disk may refuse to open the file, but takes what is written to it. */
  predicate FairFate(f: Fate) { f.first.Good? && f.second.Good? }

  predicate FairStep(st: Step) {
    st.Land? ==> st.last.Good? && forall i :: 0 <= i < |st.fates| ==> FairFate(st.fates[i])
  }

  lemma SunkIsClean(s: State, ls: seq<Line>)
    requires CleanStore(s)
    ensures CleanStore(Sunk(s, ls))
  {
  }

  lemma OneIsClean(s: State, l: Line, f: Fate)
    requires CleanStore(s) && FairFate(f)
    ensures CleanStore(WriteOne(s, l, f).0)
  {
    hide Clean, Sunk, FileBytes;
    var o := if s.of.open then s else Opened(s);
    SunkIsClean(o, [l]);
    SunkIsClean(o, o.of.buffer);
    SunkIsClean(Emptied(Sunk(o, o.of.buffer)), [l]);
  }

  lemma {:induction false} AllIsClean(s: State, batch: seq<Line>, fates: seq<Fate>)
    requires CleanStore(s) && |fates| == |batch| && forall i :: 0 <= i < |fates| ==> FairFate(fates[i])
    ensures CleanStore(WriteAll(s, batch, fates).0)
  {
    hide CleanStore, WriteOne, FairFate;
    if |batch| > 0 {
      var k := |batch| - 1;
      AllIsClean(s, batch[..k], fates[..k]);
      OneIsClean(WriteAll(s, batch[..k], fates[..k]).0, batch[k], fates[k]);
    }
  }

  lemma StepIsClean(s: State, st: Step)
    requires CleanStore(s) && FairStep(st)
    ensures CleanStore(Apply(s, st))
  {
    hide WriteAll, Sunk, Readable, MaxSeq, FairFate;
    if st.Land? && st.batch < |s.held| && |st.fates| == |s.held[st.batch]| {
      AllIsClean(Released(s, st.batch), s.held[st.batch], st.fates);
      var t := WriteAll(Released(s, st.batch), s.held[st.batch], st.fates).0;
      SunkIsClean(t, t.of.buffer);
    }
  }

  lemma {:induction false} RunIsClean(s: State, steps: seq<Step>)
    requires CleanStore(s) && forall i :: 0 <= i < |steps| ==> FairStep(steps[i])
    ensures CleanStore(Run(s, steps))
    decreases |steps|
  {
    hide CleanStore, Apply, FairStep;
    if |steps| > 0 {
      StepIsClean(s, steps[0]);
      RunIsClean(Apply(s, steps[0]), steps[1..]);
    }
  }

  lemma {:induction false} WholeMember(ps: seq<Piece>)
    ensures forall l :: l in Lines(ps) <==> Whole(l) in ps
  {
    if |ps| > 0 {
      WholeMember(ps[..|ps| - 1]);
      assert ps == ps[..|ps| - 1] + [ps[|ps| - 1]];
    }
  }

  lemma CleanHidesIff(f: LogFile)
    requires Clean(f)
    ensures Hides(f) <==> exists l :: l in Contents(f) && l.bytes > MAX_LINE
  {
    WholeMember(f.pieces);
    if l :| l in Contents(f) && l.bytes > MAX_LINE {
      var i :| 0 <= i < |f.pieces| && f.pieces[i] == Whole(l);
      assert PieceBytes(f.pieces[i]) > MAX_LINE;
    }
    if Hides(f) {
      var i, j :| 0 <= i <= j < |f.pieces| && PieceBytes(f.pieces[i]) > MAX_LINE && f.pieces[j].Whole?;
      assert f.pieces[i] == Whole(f.pieces[i].line);
    }
  }

  /** On a disk that takes what it is given, every line in the files is found, in every run, if and only if none of
      them is longer than a mebibyte, its newline included. */
  lemma FairRunFindsAllIff(steps: seq<Step>)
    requires forall i :: 0 <= i < |steps| ==> FairStep(steps[i])
    ensures var s := Run(FRESH, steps);
            Readable(s) == Held(s) <==> forall l :: l in Held(s) ==> l.bytes <= 0x10_0000
  {
    hide Run, FairStep, Readable, Contents, Hides, Clean;
    var s := Run(FRESH, steps);
    FreshIsClean();
    RunIsClean(FRESH, steps);
    AllFoundIff(s);
    CleanHidesIff(s.files.older);
    CleanHidesIff(s.files.current);
  }

  lemma FreshIsClean()
    ensures CleanStore(FRESH)
  {
  }

  // ---- Numbers after a restart

  predicate NoRestart(steps: seq<Step>) { forall i :: 0 <= i < |steps| ==> !steps[i].Restart? }

  /** A line in the files carries a number that `t` has handed out. */
  ghost predicate Repeats(s: State, t: State) { exists l :: l in Held(s) && l.entry.seqNo in t.taken }

  lemma StepTakesAbove(s: State, st: Step, c: nat)
    requires !st.Restart? && c <= s.counter && forall k :: k in s.taken ==> k > c
    ensures var t := Apply(s, st); c <= t.counter && forall k :: k in t.taken ==> k > c
  {
    hide Landed;
    if st.Land? && st.batch < |s.held| && |st.fates| == |s.held[st.batch]| {
      LandedElse(Released(s, st.batch), s.held[st.batch], st.fates, st.last);
    }
  }

  lemma {:induction false} AllElse(s: State, batch: seq<Line>, fates: seq<Fate>)
    requires |fates| == |batch|
    ensures var t := WriteAll(s, batch, fates).0;
            t.counter == s.counter && t.taken == s.taken && t.queue == s.queue && t.held == s.held
  {
    hide WriteOne;
    if |batch| > 0 {
      var k := |batch| - 1;
      AllElse(s, batch[..k], fates[..k]);
      OneElse(WriteAll(s, batch[..k], fates[..k]).0, batch[k], fates[k]);
    }
  }

  lemma OneElse(s: State, l: Line, f: Fate)
    ensures var t := WriteOne(s, l, f).0;
            t.counter == s.counter && t.taken == s.taken && t.queue == s.queue && t.held == s.held
  {
    hide FileBytes, Torn, Sink;
  }

  lemma LandedElse(s: State, batch: seq<Line>, fates: seq<Fate>, last: Disk)
    requires |fates| == |batch|
    ensures var t := Landed(s, batch, fates, last);
            t.counter == s.counter && t.taken == s.taken && t.queue == s.queue && t.held == s.held
  {
    hide WriteAll, Torn, Sink;
    AllElse(s, batch, fates);
  }

  lemma {:induction false} RunTakesAbove(s: State, steps: seq<Step>, c: nat)
    requires NoRestart(steps) && c <= s.counter && forall k :: k in s.taken ==> k > c
    ensures forall k :: k in Run(s, steps).taken ==> k > c
    decreases |steps|
  {
    hide Apply;
    if |steps| > 0 {
      StepTakesAbove(s, steps[0], c);
      RunTakesAbove(Apply(s, steps[0]), steps[1..], c);
    }
  }

  function Takes(n: nat): seq<Step> { seq(n, _ => Take) }

  lemma {:induction false} TakesHandOut(s: State, n: nat)
    ensures var t := Run(s, Takes(n)); t.counter == s.counter + n && forall k :: s.counter < k <= s.counter + n ==>
              k in t.taken
    decreases n
  {
    if n > 0 {
      assert Takes(n) == Takes(n - 1) + [Take];
      TakesHandOut(s, n - 1);
      RunSnoc(s, Takes(n - 1), Take);
    }
  }

  /** A restart is safe, no number of a line in the files being handed out again whatever happens until the next one, if
      and only if no line carries a number above all that a scan finds. */
  lemma RestartSafeIff(s: State)
    ensures (forall after :: NoRestart(after) ==> !Repeats(s, Run(Restarted(s), after)))
            <==> Resumes(s)
  {
    hide Held, Readable, MaxSeq, Run;
    var r := Restarted(s);
    if Resumes(s) {
      forall after | NoRestart(after) ensures !Repeats(s, Run(r, after)) {
        RunTakesAbove(r, after, r.counter);
      }
    } else {
      var l :| l in Held(s) && l.entry.seqNo > MaxSeq(Readable(s));
      var n: nat := l.entry.seqNo - r.counter;
      TakesHandOut(r, n);
      assert NoRestart(Takes(n)) && Repeats(s, Run(r, Takes(n)));
    }
  }

  /** It is safe whenever neither file hides a line. */
  lemma NothingHiddenIsSafe(s: State, after: seq<Step>)
    requires !Hides(s.files.older) && !Hides(s.files.current) && NoRestart(after)
    ensures !Repeats(s, Run(Restarted(s), after))
  {
    hide Hides, Held, Readable, MaxSeq, Run, NoRestart, Repeats;
    AllFoundIff(s);
    MaxSeqBounds(Readable(s));
    RestartSafeIff(s);
  }

  // ---- Lines that are missed

  /** The handle takes writes and the file ends with a line. */
  predicate Calm(s: State) { !s.of.broken && s.of.buffer == [] && s.of.n == 0 && s.files.current.tail.NoTail? }

  /** The size the next flush starts from. */
  function Begun(s: State): nat { if s.of.open then s.of.size else FileBytes(s.files.current) }

  function Grown(f: LogFile, l: Line): LogFile { f.(pieces := f.pieces + [Whole(l)]) }

  /** A batch of one line on a disk without failures. */
  lemma OneLands(s: State, l: Line)
    requires Calm(s) && Begun(s) + l.bytes <= MAX_FILE
    ensures var t := Landed(s, [l], [FAIR], Good);
            && t == s.(files := s.files.(current := Grown(s.files.current, l)), of := t.of, past := t.past)
            && Calm(t) && Begun(t) == Begun(s) + l.bytes
  {
    hide FileBytes;
    AllOfOne(s, l, FAIR);
    var o := if s.of.open then s else Opened(s);
    assert o.of.buffer + [l] == [l];
  }

  /** A held line is queued, drained and written, behind whatever batches are held. */
  lemma PutLands(s: State, l: Line)
    requires l.entry.seqNo in s.taken && s.queue == [] && Calm(s) && Begun(s) + l.bytes <= MAX_FILE
    ensures var t := Run(s, [Put(l), Drain, Land(|s.held|, [FAIR], Good)]);
            && t == s.(taken := s.taken - {l.entry.seqNo}, files := s.files.(current := Grown(s.files.current, l)),
                       of := t.of, past := t.past)
            && Calm(t) && Begun(t) == Begun(s) + l.bytes
  {
    hide Landed, Run, Calm, Begun;
    var steps := [Put(l), Drain, Land(|s.held|, [FAIR], Good)];
    var r := s.(taken := s.taken - {l.entry.seqNo}, past := s.past.(put := s.past.put + 1));
    assert steps == ([Put(l)] + [Drain]) + [Land(|s.held|, [FAIR], Good)];
    RunSnoc(s, [Put(l)] + [Drain], Land(|s.held|, [FAIR], Good));
    RunSnoc(s, [Put(l)], Drain);
    RunOne(s, Put(l));
    assert s.queue + [l] == [l];
    var d := Drained(Queued(s, l));
    assert d == r.(queue := [], held := s.held + [[l]]);
    assert d.held[..|s.held|] + d.held[|s.held| + 1..] == s.held;
    SameCalm(s, r);
    OneLands(r, l);
  }

  lemma SameCalm(s: State, t: State)
    requires t.of == s.of && t.files == s.files
    ensures Calm(t) == Calm(s) && Begun(t) == Begun(s)
  {
  }

  lemma FreshIsCalm()
    ensures Calm(FRESH) && Begun(FRESH) == 0
  {
  }

  /** Two callers hold numbers 1 and 2; the second queues first and a tail reads up to 2. When the first line
      lands it is in the file, and no poll from 2 returns it. */
  lemma LateLineIsMissed(a: Line, b: Line, limit: int, requests: nat)
    requires a.entry.seqNo == 1 && b.entry.seqNo == 2 && a.bytes <= MAX_LINE && b.bytes <= MAX_LINE
    ensures var s := Run(FRESH, [Take, Take, Put(b), Drain, Land(0, [FAIR], Good)]);
            var t := Run(s, [Put(a), Drain, Land(0, [FAIR], Good)]);
            && Readable(s) == [b] && Readable(t) == [b, a]
            && a.entry !in Forward(Ordered(Entries(Readable(t)), _ => true), 2, limit, requests)
  {
    hide Landed, Ordered, Forward, Run, Calm, Begun, Apply;
    var two := [Take] + [Take];
    var landB := [Put(b), Drain, Land(0, [FAIR], Good)];
    var landA := [Put(a), Drain, Land(0, [FAIR], Good)];
    assert two + landB == [Take, Take, Put(b), Drain, Land(0, [FAIR], Good)];
    RunConcat(FRESH, two, landB);
    TwoTaken();
    FreshIsCalm();
    var held := FRESH.(counter := 2, taken := {1, 2});
    SameCalm(FRESH, held);
    PutLands(held, b);
    var s := Run(FRESH, two + landB);
    PutLands(s, a);
    var t := Run(s, landA);
    BothAreFound(s, t, a, b);
    ForwardAbove(Ordered(Entries(Readable(t)), _ => true), 2, limit, requests);
  }

  lemma FoundNext(ps: seq<Piece>, l: Line)
    requires Clear(ps) && l.bytes <= MAX_LINE
    ensures Clear(ps + [Whole(l)]) && Found(ps + [Whole(l)]) == Found(ps) + [l]
  {
    assert (ps + [Whole(l)])[..|ps|] == ps;
  }

  lemma BothAreFound(s: State, t: State, a: Line, b: Line)
    requires s.files == Files(NO_FILE, Grown(NO_FILE, b)) && t.files == Files(NO_FILE, Grown(Grown(NO_FILE, b), a))
    requires a.bytes <= MAX_LINE && b.bytes <= MAX_LINE
    ensures Readable(s) == [b] && Readable(t) == [b, a]
  {
    NoFileIsEmpty();
    FoundNext([], b);
    FoundNext([Whole(b)], a);
    assert [] + [Whole(b)] == [Whole(b)];
  }

  lemma TwoTaken()
    ensures Run(FRESH, [Take] + [Take]) == FRESH.(counter := 2, taken := {1, 2})
  {
    RunSnoc(FRESH, [Take], Take);
    RunOne(FRESH, Take);
  }

  /** Lines 1 and 2 are queued in order, but the flusher that drained line 1 writes after the one that drained line
      2, and a tail reads in between: line 1 ends in the file, and no poll from 2 returns it. */
  lemma HeldLineIsMissed(a: Line, b: Line, limit: int, requests: nat)
    requires a.entry.seqNo == 1 && b.entry.seqNo == 2 && a.bytes <= MAX_LINE && b.bytes <= MAX_LINE
    ensures var s := Run(FRESH, [Take, Put(a), Drain, Take, Put(b), Drain, Land(1, [FAIR], Good)]);
            var t := Run(s, [Land(0, [FAIR], Good)]);
            && Readable(s) == [b] && Readable(t) == [b, a]
            && a.entry !in Forward(Ordered(Entries(Readable(t)), _ => true), 2, limit, requests)
  {
    hide Landed, Ordered, Forward, Run, Calm, Begun, Apply;
    var landB := [Put(b), Drain, Land(1, [FAIR], Good)];
    var first := [Take, Put(a), Drain, Take];
    assert first + landB == [Take, Put(a), Drain, Take, Put(b), Drain, Land(1, [FAIR], Good)];
    RunConcat(FRESH, first, landB);
    var r := Run(FRESH, first);
    OneHeld(a);
    FreshIsCalm();
    SameCalm(FRESH, r);
    PutLands(r, b);
    var s := Run(r, landB);
    RunOne(s, Land(0, [FAIR], Good));
    assert Apply(s, Land(0, [FAIR], Good)) == Landed(Released(s, 0), [a], [FAIR], Good) by { LandsFirst(s, a); }
    SameCalm(s, Released(s, 0));
    OneLands(Released(s, 0), a);
    var t := Run(s, [Land(0, [FAIR], Good)]);
    BothAreFound(s, t, a, b);
    ForwardAbove(Ordered(Entries(Readable(t)), _ => true), 2, limit, requests);
  }

  lemma LandsFirst(s: State, a: Line)
    requires s.held == [[a]]
    ensures Apply(s, Land(0, [FAIR], Good)) == Landed(Released(s, 0), [a], [FAIR], Good)
  {
    hide Landed;
  }

  lemma OneHeld(a: Line)
    requires a.entry.seqNo == 1
    ensures Run(FRESH, [Take, Put(a), Drain, Take])
            == FRESH.(counter := 2, taken := {2}, held := [[a]], past := FRESH.past.(put := 1))
  {
    hide Run;
    assert [Take, Put(a), Drain, Take] == (([Take] + [Put(a)]) + [Drain]) + [Take];
    RunSnoc(FRESH, ([Take] + [Put(a)]) + [Drain], Take);
    RunSnoc(FRESH, [Take] + [Put(a)], Drain);
    RunSnoc(FRESH, [Take], Put(a));
    RunOne(FRESH, Take);
    assert [] + [a] == [a] && [] + [[a]] == [[a]];
  }

  /** A line longer than a mebibyte and one behind it: both stand in the file and neither is found, and after a restart
      the first number handed out is the one the long line carries. */
  lemma LongLineHides(a: Line, b: Line)
    requires a.entry.seqNo == 1 && b.entry.seqNo == 2 && a.bytes > MAX_LINE && a.bytes + b.bytes <= MAX_FILE
    ensures var s := Run(FRESH, [Take, Put(a), Drain, Land(0, [FAIR], Good), Take, Put(b), Drain,
              Land(0, [FAIR], Good)]);
            && Held(s) == [a, b] && Readable(s) == []
            && Run(s, [Restart, Take]).taken == {1} && Repeats(s, Run(s, [Restart, Take]))
  {
    hide Run, Calm, Begun, Apply, Readable, Held;
    var landA, landB := [Put(a), Drain, Land(0, [FAIR], Good)], [Put(b), Drain, Land(0, [FAIR], Good)];
    var steps := (([Take] + landA) + [Take]) + landB;
    assert steps == [Take, Put(a), Drain, Land(0, [FAIR], Good), Take, Put(b), Drain, Land(0, [FAIR], Good)];
    RunConcat(FRESH, ([Take] + landA) + [Take], landB);
    RunSnoc(FRESH, [Take] + landA, Take);
    RunConcat(FRESH, [Take], landA);
    TakeOne(FRESH);
    FreshIsCalm();
    var r := FRESH.(counter := 1, taken := {1});
    SameCalm(FRESH, r);
    PutLands(r, a);
    var t := Run(r, landA);
    assert Run(FRESH, [Take]) == r && Run(FRESH, [Take] + landA) == t;
    TakeOne(t);
    var u := t.(counter := 2, taken := {2});
    assert t.taken == {} && Apply(t, Take) == u;
    SameCalm(t, u);
    PutLands(u, b);
    var s := Run(u, landB);
    LongIsHidden(s, a, b);
    assert [Restart, Take] == [Restart] + [Take];
    RunSnoc(s, [Restart], Take);
    RunOne(s, Restart);
    RestartsAt(s);
    TakeOne(Restarted(s));
    assert a in Held(s);
  }

  lemma TakeOne(s: State)
    ensures Apply(s, Take) == s.(counter := s.counter + 1, taken := s.taken + {s.counter + 1})
    ensures Run(s, [Take]) == Apply(s, Take)
  {
    RunOne(s, Take);
  }

  lemma RestartsAt(s: State)
    ensures Apply(s, Restart) == Restarted(s)
    ensures Readable(s) == [] ==> Restarted(s).counter == 0 && Restarted(s).taken == {}
  {
    hide Readable;
  }

  lemma LongIsHidden(s: State, a: Line, b: Line)
    requires s.files == Files(NO_FILE, Grown(Grown(NO_FILE, a), b)) && a.bytes > MAX_LINE
    ensures Held(s) == [a, b] && Readable(s) == []
  {
    hide Lines, Found, Clear;
    assert [] + [Whole(a)] + [Whole(b)] == [Whole(a), Whole(b)];
    LongPieces(a, b);
    NoFileIsEmpty();
    assert [] + [a, b] + [] == [a, b];
  }

  lemma LongPieces(a: Line, b: Line)
    requires a.bytes > MAX_LINE
    ensures var ps := [Whole(a), Whole(b)]; Lines(ps) == [a, b] && Found(ps) == [] && !Clear(ps)
  {
    var ps := [Whole(a), Whole(b)];
    assert ps[..1] == [Whole(a)] && [Whole(a)][..0] == [];
    assert Lines([Whole(a)]) == [a];
    assert Lines(ps) == [a] + [b];
    FoundStops(ps, 0);
    assert ps[..0] == [];
  }

  /** A line whose newline alone missed the disk is found as long as the file ends with it; the next line written runs
      into it, and neither is found. */
  lemma CutLineIsFoundUntilNext(a: Line, b: Line)
    requires a.entry.seqNo == 1 && b.entry.seqNo == 2 && 1 < a.bytes <= BUFFER && b.bytes <= MAX_LINE
    ensures var s := Run(FRESH, [Take, Put(a), Drain, Land(0, [FAIR], Fails(0, a.bytes - 1))]);
            && Readable(s) == [a] && s.past.written == []
            && Readable(Run(s, [Restart, Take, Put(b), Drain, Land(0, [FAIR], Good)])) == []
  {
    hide Run, Readable;
    var s := Run(FRESH, [Take, Put(a), Drain, Land(0, [FAIR], Fails(0, a.bytes - 1))]);
    CutAtEnd(a);
    var f := LogFile([], Cut(a));
    CutIsFound(s, a);
    var land := [Put(b), Drain, Land(0, [FAIR], Good)];
    assert [Restart, Take, Put(b), Drain, Land(0, [FAIR], Good)] == ([Restart] + [Take]) + land;
    RunConcat(s, [Restart] + [Take], land);
    RunSnoc(s, [Restart], Take);
    RunOne(s, Restart);
    var r := Restarted(s).(counter := 2, taken := {2});
    assert Apply(Restarted(s), Take) == r;
    RunsInto(r, a, b);
  }

  lemma CutIsFound(s: State, a: Line)
    requires s.files == Files(NO_FILE, LogFile([], Cut(a))) && a.bytes <= MAX_LINE
    ensures Readable(s) == [a] && MaxSeq(Readable(s)) == a.entry.seqNo
  {
    assert [a][..0] == [];
  }

  lemma CutAtEnd(a: Line)
    requires a.entry.seqNo == 1 && 1 < a.bytes <= BUFFER
    ensures var s := Run(FRESH, [Take, Put(a), Drain, Land(0, [FAIR], Fails(0, a.bytes - 1))]);
            s.files == Files(NO_FILE, LogFile([], Cut(a))) && s.past.written == []
  {
    hide Run, Landed, FileBytes;
    var d := FRESH.(counter := 1, taken := {}, held := [[a]], past := FRESH.past.(put := 1));
    var first := ([Take] + [Put(a)]) + [Drain];
    assert [Take, Put(a), Drain, Land(0, [FAIR], Fails(0, a.bytes - 1))] == first
        + [Land(0, [FAIR], Fails(0, a.bytes - 1))];
    RunSnoc(FRESH, first, Land(0, [FAIR], Fails(0, a.bytes - 1)));
    RunSnoc(FRESH, [Take] + [Put(a)], Drain);
    RunSnoc(FRESH, [Take], Put(a));
    RunOne(FRESH, Take);
    assert [] + [a] == [a] && [] + [[a]] == [[a]];
    assert Run(FRESH, first) == d;
    TearsOnFlush(Released(d, 0), a);
  }

  lemma TearsOnFlush(s: State, a: Line)
    requires s.files == FRESH.files && s.of == CLOSED && 1 < a.bytes <= BUFFER
    ensures var t := Landed(s, [a], [FAIR], Fails(0, a.bytes - 1));
            t.files == Files(NO_FILE, LogFile([], Cut(a))) && t.past.written == s.past.written
  {
    hide FileBytes;
    NoFileIsEmpty();
    AllOfOne(s, a, FAIR);
    assert [] + [a] == [a] && [a][..0] == [];
  }

  lemma RunsInto(s: State, a: Line, b: Line)
    requires s.files == Files(NO_FILE, LogFile([], Cut(a))) && s.of == CLOSED && s.queue == [] && s.held == []
    requires b.entry.seqNo in s.taken && b.bytes <= MAX_LINE && a.bytes <= BUFFER
    ensures Readable(Run(s, [Put(b), Drain, Land(0, [FAIR], Good)])) == []
  {
    hide Run, Landed, Readable;
    var land := Land(0, [FAIR], Good);
    assert [Put(b), Drain, land] == ([Put(b)] + [Drain]) + [land];
    RunSnoc(s, [Put(b)] + [Drain], land);
    RunSnoc(s, [Put(b)], Drain);
    RunOne(s, Put(b));
    assert [] + [b] == [b] && [] + [[b]] == [[b]];
    var d := s.(taken := s.taken - {b.entry.seqNo}, held := [[b]], past := s.past.(put := s.past.put + 1));
    assert Run(s, [Put(b)] + [Drain]) == d;
    LandsBehind(Released(d, 0), a, b);
  }

  lemma LandsBehind(s: State, a: Line, b: Line)
    requires s.files == Files(NO_FILE, LogFile([], Cut(a))) && s.of == CLOSED && b.bytes <= MAX_LINE
               && a.bytes <= BUFFER
    ensures Readable(Landed(s, [b], [FAIR], Good)) == []
  {
    hide FileBytes, Readable;
    AllOfOne(s, b, FAIR);
    var o := Opened(s);
    assert o.of.size == a.bytes - 1 by { TailOnly(a); }
    assert o.of.buffer + [b] == [b] && [b][1..] == [];
    var t := Landed(s, [b], [FAIR], Good);
    var scrap := Scrap(a.bytes - 1 + b.bytes);
    assert [] + [scrap] + Wholes([]) == [scrap];
    assert t.files == Files(NO_FILE, LogFile([scrap], NoTail));
    ScrapOnly(t, scrap);
  }

  lemma TailOnly(a: Line)
    ensures FileBytes(LogFile([], Cut(a))) == a.bytes - 1
  {
  }

  lemma ScrapOnly(s: State, scrap: Piece)
    requires s.files == Files(NO_FILE, LogFile([scrap], NoTail)) && scrap.Scrap?
    ensures Readable(s) == []
  {
    assert [scrap][..0] == [];
  }

  // ---- What a tail misses, over runs

  function At(steps: seq<Step>, k: nat): State
    requires k <= |steps|
  {
    Run(FRESH, steps[..k])
  }

  /** The number from which a tail that has read everything polls on. */
  function Cursor(s: State): nat { MaxSeq(Readable(s)) }

  /** A tail that has read all of `s` follows `after` from there in `t` and does not get line `l`, which is new. */
  ghost predicate Misses(s: State, t: State, l: Line, limit: int) {
    var all := Ordered(Entries(Readable(t)), ANY);
    Cursor(s) > 0 && l in Readable(t) && l !in Readable(s) && l.entry !in Forward(all, Cursor(s), limit, |all|)
  }

  /** A step brings a line to the reader. */
  predicate Arrives(steps: seq<Step>, k: nat, l: Line)
    requires k < |steps|
  {
    l in Readable(At(steps, k + 1)) && l !in Readable(At(steps, k))
  }

  /** Each arriving line is numbered above all that could be read at any earlier point at which it could not. */
  ghost predicate InOrder(steps: seq<Step>) {
    forall k, l, i :: 0 <= i <= k < |steps| && Arrives(steps, k, l) && l !in Readable(At(steps, i)) ==>
      l.entry.seqNo > Cursor(At(steps, i))
  }

  /** A line that is new at `j` arrived at some step since `i`. */
  lemma {:induction false} ArrivedBetween(steps: seq<Step>, i: nat, j: nat, l: Line) returns (k: nat)
    requires i <= j <= |steps| && l in Readable(At(steps, j)) && l !in Readable(At(steps, i))
    ensures i <= k < j && Arrives(steps, k, l)
    decreases j
  {
    hide Readable, Run;
    if l in Readable(At(steps, j - 1)) {
      k := ArrivedBetween(steps, i, j - 1, l);
    } else {
      k := j - 1;
    }
  }

  /** What a poll gets: everything above its cursor. */
  lemma MissedIff(steps: seq<Step>, i: nat, j: nat, l: Line, limit: int)
    requires i <= j <= |steps|
    ensures var s, t := At(steps, i), At(steps, j);
            Misses(s, t, l, limit) <==>
              Cursor(s) > 0 && l in Readable(t) && l !in Readable(s) && l.entry.seqNo <= Cursor(s)
  {
    hide Run, Readable, MaxSeq, Ordered, Forward, Ascending, Backward;
    var s, t := At(steps, i), At(steps, j);
    if Cursor(s) > 0 && l in Readable(t) {
      CursorsSeeEverything(steps[..j], ANY, limit, Cursor(s));
      var x :| 0 <= x < |Readable(t)| && Readable(t)[x] == l;
      assert Entries(Readable(t))[x] == l.entry;
    }
  }

  /** Over a run, whenever a tail reads everything and polls on later, it gets every line that is new, if and only if
      lines arrive in the order of their numbers. */
  lemma TailMissesNothingIff(steps: seq<Step>, limit: int)
    ensures (forall i, j, l :: 0 <= i <= j <= |steps| ==> !Misses(At(steps, i), At(steps, j), l, limit)) <==>
              InOrder(steps)
  {
    hide Run, Readable, MaxSeq, At, Misses, Arrives;
    if InOrder(steps) {
      forall i, j, l | 0 <= i <= j <= |steps| ensures !Misses(At(steps, i), At(steps, j), l, limit) {
        MissedIff(steps, i, j, l, limit);
        if l in Readable(At(steps, j)) && l !in Readable(At(steps, i)) {
          var k := ArrivedBetween(steps, i, j, l);
        }
      }
    } else {
      var k, l, i :| 0 <= i <= k < |steps| && Arrives(steps, k, l) && l !in Readable(At(steps, i))
                     && l.entry.seqNo <= Cursor(At(steps, i));
      ArrivesMeans(steps, k, l);
      MissedIff(steps, i, k + 1, l, limit);
      ArrivedIsNumbered(steps, k + 1, l);
    }
  }

  lemma ArrivesMeans(steps: seq<Step>, k: nat, l: Line)
    requires k < |steps| && Arrives(steps, k, l)
    ensures l in Readable(At(steps, k + 1))
  {
  }

  lemma ArrivedIsNumbered(steps: seq<Step>, k: nat, l: Line)
    requires k <= |steps| && l in Readable(At(steps, k))
    ensures l.entry.seqNo >= 1
  {
    hide Run, Readable;
    FilesHoldNewest(steps[..k]);
  }
}
