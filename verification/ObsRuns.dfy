/** Every run of the log store: what its files keep, what its drop counter counts, and how lines are numbered. */
module ObsRuns {
  import opened ObsRead
  import opened ObsStore
  import opened Wrappers

  // ---- Every run

  datatype Step = Take | Put(line: Line) | Drain | Land(batch: nat, fates: seq<Fate>, last: Disk) | Restart

  /** Numbers are handed out and lines queued by different callers, so lines may be queued out of order; several
      flushers may hold batches, and write them in any order. A line is queued under a number its caller holds; a
      script that fits no batch is no step. */
  function Apply(s: State, st: Step): State {
    match st
    case Take => s.(counter := s.counter + 1, taken := s.taken + {s.counter + 1})
    case Put(l) => if l.entry.seqNo in s.taken then Queued(s, l) else s
    case Drain => Drained(s)
    case Land(i, fates, last) =>
      if i < |s.held| && |fates| == |s.held[i]| then Landed(Released(s, i), s.held[i], fates, last) else s
    case Restart => Restarted(s)
  }

  function Run(s: State, steps: seq<Step>): State
    decreases |steps|
  {
    if |steps| == 0 then s else Run(Apply(s, steps[0]), steps[1..])
  }

  lemma {:induction false} RunConcat(s: State, a: seq<Step>, b: seq<Step>)
    ensures Run(s, a + b) == Run(Run(s, a), b)
    decreases |a|
  {
    hide Apply;
    if |a| == 0 {
      assert a + b == b;
    } else {
      assert (a + b)[1..] == a[1..] + b;
      RunConcat(Apply(s, a[0]), a[1..], b);
    }
  }

  // ---- The files hold the newest lines

  predicate IsSuffix(a: seq<Line>, b: seq<Line>) { |a| <= |b| && a == b[|b| - |a|..] }

  lemma {:induction false} BytesConcat(a: seq<Line>, b: seq<Line>)
    ensures Bytes(a + b) == Bytes(a) + Bytes(b)
  {
    if |b| == 0 {
      assert a + b == a;
    } else {
      assert (a + b)[..|a + b| - 1] == a + b[..|b| - 1];
      BytesConcat(a, b[..|b| - 1]);
    }
  }

  lemma BytesOne(l: Line)
    ensures Bytes([l]) == l.bytes && Bytes([]) == 0
  {
    assert [l][..0] == [];
  }

  lemma {:induction false} PiecesConcat(a: seq<Piece>, b: seq<Piece>)
    ensures Sum(a + b) == Sum(a) + Sum(b) && Lines(a + b) == Lines(a) + Lines(b)
  {
    if |b| == 0 {
      assert a + b == a;
    } else {
      assert (a + b)[..|a + b| - 1] == a + b[..|b| - 1];
      PiecesConcat(a, b[..|b| - 1]);
    }
  }

  lemma {:induction false} WholesAre(ls: seq<Line>)
    ensures Sum(Wholes(ls)) == Bytes(ls) && Lines(Wholes(ls)) == ls
  {
    if |ls| > 0 {
      WholesAre(ls[..|ls| - 1]);
      assert Wholes(ls)[..|ls| - 1] == Wholes(ls[..|ls| - 1]);
    }
  }

  lemma OnePiece(p: Piece)
    ensures Sum([p]) == PieceBytes(p) && Lines([p]) == if p.Whole? then [p.line] else []
  {
    assert [p][..0] == [];
  }

  /** What of `ls` stands in the file once it is written. */
  function Landing(f: LogFile, ls: seq<Line>): seq<Line> { if |ls| == 0 || f.tail.NoTail? then ls else ls[1..] }

  lemma SinkEffect(f: LogFile, past: History, ls: seq<Line>)
    ensures var (g, later) := Sink(f, past, ls);
            && Standing(g) == Standing(f) + Landing(f, ls) && FileBytes(g) == FileBytes(f) + Bytes(ls)
            && later == past.(written := past.written + Landing(f, ls), lost := past.lost + (|ls| - |Landing(f, ls)|))
            && (|ls| > 0 ==> g.tail.NoTail?)
  {
    hide Bytes, Sum, Lines;
    NoBytes();
    if |ls| > 0 {
      WholesAre(ls);
      WholesAre(ls[1..]);
      PiecesConcat(f.pieces, Wholes(ls));
      if !f.tail.NoTail? {
        var scrap := Scrap(TailBytes(f.tail) + ls[0].bytes);
        OnePiece(scrap);
        PiecesConcat(f.pieces, [scrap]);
        PiecesConcat(f.pieces + [scrap], Wholes(ls[1..]));
        assert [ls[0]] + ls[1..] == ls;
        BytesConcat([ls[0]], ls[1..]);
        BytesOne(ls[0]);
      }
    }
  }

  lemma TearEffect(f: LogFile, half: nat, l: Line)
    ensures var g := f.(tail := Torn(f.tail, half, l)); Standing(g) == Standing(f) && FileBytes(g) >= FileBytes(f)
  {
  }

  /** While a batch is written: what stands in the files are the newest written lines, and the store's own size is at
      least what it has sunk or buffered, and no more than the file and the buffer unless lines were lost. */
  ghost predicate Writing(f: Files, of: Handle, past: History) {
    && IsSuffix(Standing(f.older) + Standing(f.current), past.written)
    && (Standing(f.older) + Standing(f.current) == past.written || FileBytes(f.older) > MAX_FILE || past.lost > 0)
    && (of.open ==> Bytes(Standing(f.current)) + Bytes(of.buffer) <= of.size)
    && (of.open && past.lost == 0 ==> of.size <= FileBytes(f.current) + Bytes(of.buffer))
    && (of.n == 0 <==> of.buffer == [])
    && (!of.open || of.broken ==> of.n == 0)
  }

  /** Between batches. */
  ghost predicate Retains(s: State) {
    Writing(s.files, s.of, s.past) && s.of.buffer == [] && s.of.n == 0 && Bytes(Standing(s.files.current)) <= MAX_FILE
  }

  lemma SuffixAppend(older: seq<Line>, current: seq<Line>, b: seq<Line>, ls: seq<Line>)
    requires IsSuffix(older + current, b)
    ensures IsSuffix(older + (current + ls), b + ls) && (older + current == b ==> older + (current + ls) == b + ls)
  {
    assert older + (current + ls) == (older + current) + ls;
  }

  lemma SuffixDrop(a: seq<Line>, c: seq<Line>, b: seq<Line>)
    requires IsSuffix(a + c, b)
    ensures IsSuffix(c + [], b)
  {
    assert c + [] == c;
    assert b[|b| - |c|..] == b[|b| - |a + c|..][|a|..];
  }

  /** Lines that leave the buffer keep the relations, and empty it. */
  lemma SinkKeeps(f: Files, of: Handle, past: History, ls: seq<Line>)
    requires Writing(f, of, past) && of.open && !of.broken && Bytes(ls) <= Bytes(of.buffer)
    requires past.lost == 0 ==> Bytes(ls) == Bytes(of.buffer)
    ensures var (g, later) := Sink(f.current, past, ls);
              Writing(f.(current := g), of.(buffer := [], n := 0, lead := 0), later)
  {
    hide IsSuffix, Bytes, Sink, Standing, FileBytes;
    NoBytes();
    var landing := Landing(f.current, ls);
    SinkEffect(f.current, past, ls);
    SuffixAppend(Standing(f.older), Standing(f.current), past.written, landing);
    BytesConcat(Standing(f.current), landing);
    if |ls| > 0 {
      assert [ls[0]] + ls[1..] == ls;
      BytesConcat([ls[0]], ls[1..]);
    }
  }

  lemma NoBytes()
    ensures Bytes([]) == 0
  {
  }

  /** A torn end of the file and a broken handle keep them too. */
  lemma TearKeeps(s: State, half: nat, l: Line)
    requires Writing(s.files, s.of, s.past) && s.of.n == 0
    ensures var t := Halved(s, half, l); Writing(t.files, t.of, t.past)
    ensures var t := Broken(s); Writing(t.files, t.of, t.past)
  {
    hide IsSuffix, Bytes, Standing, FileBytes, Torn;
    TearEffect(s.files.current, half, l);
  }

  lemma SpillKeeps(s: State, d: Disk, next: Option<Line>, ahead: nat)
    requires Writing(s.files, s.of, s.past) && s.of.open && !s.of.broken
    ensures var t := Spilled(s, d, next, ahead);
            && Writing(t.files, t.of, t.past) && t.of.open && t.of.buffer == [] && t.of.n == 0
            && t.of.size == s.of.size && t.of.broken == d.Fails?
  {
    hide IsSuffix, Bytes, Sink, Standing, FileBytes, Torn, Writing;
    match d
    case Good => SinkAll(s);
    case Fails(lines, half) =>
      var m := Min(lines, |s.of.buffer|);
      SinkSome(s, m);
      LostLater(s.files.current, s.past, s.of.buffer[..m], |s.of.buffer| - m);
      var u := Emptied(Sunk(s.(past := s.past.(lost := s.past.lost + (|s.of.buffer| - m))), s.of.buffer[..m]));
      if m < |s.of.buffer| {
        TearKeeps(u, half + (if m == 0 then s.of.lead else 0), s.of.buffer[m]);
      } else if next.Some? {
        TearKeeps(u, Min(half, ahead), next.value);
      } else {
        TearKeeps(u, 0, Line(Entry(0, ""), 1));
      }
  }

  lemma SinkAll(s: State)
    requires Writing(s.files, s.of, s.past) && s.of.open && !s.of.broken
    ensures var t := Emptied(Sunk(s, s.of.buffer)); Writing(t.files, t.of, t.past)
  {
    hide Sink, Writing, Bytes;
    SinkKeeps(s.files, s.of, s.past, s.of.buffer);
  }

  /** The same for a part of the buffer, the rest being lost. */
  lemma SinkSome(s: State, m: nat)
    requires Writing(s.files, s.of, s.past) && s.of.open && !s.of.broken && m <= |s.of.buffer|
    ensures var past := s.past.(lost := s.past.lost + (|s.of.buffer| - m));
            var t := Emptied(Sunk(s.(past := past), s.of.buffer[..m])); Writing(t.files, t.of, t.past)
  {
    hide IsSuffix, Bytes, Sink, Standing, FileBytes;
    assert s.of.buffer[..m] + s.of.buffer[m..] == s.of.buffer;
    BytesConcat(s.of.buffer[..m], s.of.buffer[m..]);
    if m == |s.of.buffer| {
      assert s.of.buffer[..m] == s.of.buffer;
    }
    SinkKeeps(s.files, s.of, s.past.(lost := s.past.lost + (|s.of.buffer| - m)), s.of.buffer[..m]);
  }

  lemma LostLater(f: LogFile, past: History, ls: seq<Line>, more: nat)
    ensures var (g, later) := Sink(f, past, ls);
            Sink(f, past.(lost := past.lost + more), ls) == (g, later.(lost := later.lost + more))
  {
  }

  lemma DirectKeeps(s: State, l: Line, d: Disk, ahead: nat)
    requires Writing(s.files, s.of, s.past) && s.of.open && !s.of.broken && s.of.buffer == [] && s.of.n == 0
    ensures var (t, ok) := Direct(s, l, d, ahead);
            && Writing(t.files, t.of, t.past) && t.of.open && t.of.buffer == [] && t.of.n == 0
            && (!ok ==> Standing(t.files.current) == Standing(s.files.current))
  {
    hide IsSuffix, Bytes, Sink, Standing, FileBytes, Torn;
    NoBytes();
    BytesOne(l);
    match d
    case Good =>
      var of := s.of.(buffer := [l], n := 1, size := s.of.size + l.bytes);
      SinkKeeps(s.files, of, s.past, [l]);
    case Fails(_, half) =>
      TearKeeps(s, ahead + half, l);
      TearEffect(s.files.current, ahead + half, l);
  }

  lemma BufferedKeeps(s: State, l: Line, f: Fate)
    requires Writing(s.files, s.of, s.past) && s.of.open && !s.of.broken
    ensures var (t, ok) := Buffered(s, l, f); Writing(t.files, t.of, t.past) && t.of.open
  {
    hide IsSuffix, Bytes, Spilled, Direct, Standing, FileBytes;
    BytesOne(l);
    BytesConcat(s.of.buffer, [l]);
    NoBytes();
    if s.of.n + l.bytes > BUFFER {
      if s.of.n == 0 {
        DirectKeeps(s, l, f.first, 0);
      } else {
        SpillKeeps(s, f.first, Some(l), Ahead(s));
        if f.first.Good? {
          DirectKeeps(Spilled(s, f.first, Some(l), Ahead(s)), l, f.second, Ahead(s));
        }
      }
    }
  }

  lemma OneKeeps(s: State, l: Line, f: Fate)
    requires Writing(s.files, s.of, s.past)
    ensures var (t, ok) := WriteOne(s, l, f); Writing(t.files, t.of, t.past) && (ok || s.of.open ==> t.of.open)
  {
    hide IsSuffix, Buffered, Bytes, Standing, FileBytes;
    NoBytes();
    StandingFits(s.files.current);
    if s.of.open || f.opens {
      var o := if s.of.open then s else Opened(s);
      if !o.of.broken {
        BufferedKeeps(o, l, f);
      }
    }
  }

  lemma {:induction false} LinesFit(ps: seq<Piece>)
    ensures Bytes(Lines(ps)) <= Sum(ps)
  {
    if |ps| > 0 {
      var p := ps[|ps| - 1];
      LinesFit(ps[..|ps| - 1]);
      BytesConcat(Lines(ps[..|ps| - 1]), if p.Whole? then [p.line] else []);
      if p.Whole? {
        BytesOne(p.line);
      }
    }
  }

  lemma StandingFits(f: LogFile)
    ensures Bytes(Standing(f)) <= FileBytes(f)
  {
    LinesFit(f.pieces);
  }

  /** A line refused with nothing buffered leaves what stands in the file alone. */
  lemma RefusedSinksNothing(s: State, l: Line, f: Fate)
    requires s.of.buffer == [] && s.of.n == 0 && !WriteOne(s, l, f).1
    ensures var t := WriteOne(s, l, f).0;
            Standing(t.files.current) == Standing(s.files.current) && t.of.buffer == [] && t.of.n == 0
  {
    hide Bytes, FileBytes, Torn;
  }

  lemma {:induction false} AllKeeps(s: State, batch: seq<Line>, fates: seq<Fate>)
    requires Retains(s) && |fates| == |batch|
    ensures var (t, seen) := WriteAll(s, batch, fates);
            && Writing(t.files, t.of, t.past)
            && (seen ==> t.of.open)
            && (!seen ==> Standing(t.files.current) == Standing(s.files.current) && t.of.buffer == [] && t.of.n == 0)
  {
    hide Writing, WriteOne, Bytes, Standing;
    if |batch| > 0 {
      var k := |batch| - 1;
      AllKeeps(s, batch[..k], fates[..k]);
      var (t, seen) := WriteAll(s, batch[..k], fates[..k]);
      OneKeeps(t, batch[k], fates[k]);
      if !seen && !WriteOne(t, batch[k], fates[k]).1 {
        RefusedSinksNothing(t, batch[k], fates[k]);
      }
    }
  }

  lemma FinishedKeeps(s: State, last: Disk)
    requires Writing(s.files, s.of, s.past) && s.of.open
    ensures Retains(Finished(s, true, last))
  {
    hide IsSuffix, Bytes, Spilled, Standing, FileBytes;
    NoBytes();
    if !s.of.broken {
      SpillKeeps(s, last, None, 0);
    }
    var t := if s.of.broken then s else Spilled(s, last, None, 0);
    SuffixDrop(Standing(t.files.older), Standing(t.files.current), t.past.written);
    NoFileIsEmpty();
    assert Standing(t.files.current) + [] == Standing(t.files.current);
  }

  lemma NoFileIsEmpty()
    ensures Standing(NO_FILE) == [] && FileBytes(NO_FILE) == 0 && Scanned(NO_FILE) == [] && Contents(NO_FILE) == []
  {
  }

  lemma LandedRetains(s: State, batch: seq<Line>, fates: seq<Fate>, last: Disk)
    requires Retains(s) && |fates| == |batch|
    ensures Retains(Landed(s, batch, fates, last))
  {
    hide Writing, WriteAll, Standing;
    AllKeeps(s, batch, fates);
    var (t, seen) := WriteAll(s, batch, fates);
    if seen {
      FinishedKeeps(t, last);
    }
  }

  lemma StepRetains(s: State, st: Step)
    requires Retains(s)
    ensures Retains(Apply(s, st))
  {
    hide Landed, IsSuffix, Bytes, Standing, FileBytes;
    NoBytes();
    if st.Land? && st.batch < |s.held| && |st.fates| == |s.held[st.batch]| {
      LandedRetains(Released(s, st.batch), s.held[st.batch], st.fates, st.last);
    }
  }

  lemma {:induction false} RunRetains(s: State, steps: seq<Step>)
    requires Retains(s)
    ensures Retains(Run(s, steps))
    decreases |steps|
  {
    hide Retains, Apply;
    if |steps| > 0 {
      StepRetains(s, steps[0]);
      RunRetains(Apply(s, steps[0]), steps[1..]);
    }
  }

  // ---- What the drop counter counts

  /** The lines of the batches that flushers hold. */
  function Waiting(held: seq<seq<Line>>): seq<Line> {
    if |held| == 0 then [] else held[0] + Waiting(held[1..])
  }

  lemma {:induction false} WaitingConcat(a: seq<seq<Line>>, b: seq<seq<Line>>)
    ensures Waiting(a + b) == Waiting(a) + Waiting(b)
  {
    if |a| == 0 {
      assert a + b == b;
    } else {
      assert (a + b)[1..] == a[1..] + b;
      WaitingConcat(a[1..], b);
    }
  }

  lemma WaitingOne(batch: seq<Line>)
    ensures Waiting([batch]) == batch && Waiting([]) == []
  {
    assert [batch][1..] == [];
  }

  lemma WaitingWithout(held: seq<seq<Line>>, i: nat)
    requires i < |held|
    ensures |Waiting(held)| == |held[i]| + |Waiting(held[..i] + held[i + 1..])|
    ensures multiset(Waiting(held)) == multiset(held[i]) + multiset(Waiting(held[..i] + held[i + 1..]))
  {
    hide Waiting;
    assert held == held[..i] + ([held[i]] + held[i + 1..]);
    WaitingConcat(held[..i], [held[i]] + held[i + 1..]);
    WaitingConcat([held[i]], held[i + 1..]);
    WaitingConcat(held[..i], held[i + 1..]);
    WaitingOne(held[i]);
  }

  /** A flush of the buffer leaves a line behind: the file ends inside a line, or the failure comes before the last. */
  predicate Leaves(s: State, d: Disk) {
    |s.of.buffer| > 0 && (!s.files.current.tail.NoTail? || (d.Fails? && d.lines < |s.of.buffer|))
  }

  /** Writing a line strands one that was accepted. */
  predicate Strands(s: State, l: Line, f: Fate) {
    if !s.of.open then f.opens && l.bytes > BUFFER && !s.files.current.tail.NoTail? && f.first.Good?
    else if s.of.broken || s.of.n + l.bytes <= BUFFER then false
    else if s.of.n == 0 then !s.files.current.tail.NoTail? && f.first.Good?
    else Leaves(s, f.first)
  }

  predicate BatchStrands(s: State, batch: seq<Line>, fates: seq<Fate>)
    requires |fates| == |batch|
  {
    |batch| > 0 &&
    var k := |batch| - 1;
    BatchStrands(s, batch[..k], fates[..k]) || Strands(WriteAll(s, batch[..k], fates[..k]).0, batch[k], fates[k])
  }

  predicate LandStrands(s: State, batch: seq<Line>, fates: seq<Fate>, last: Disk)
    requires |fates| == |batch|
  {
    var (t, seen) := WriteAll(s, batch, fates);
    BatchStrands(s, batch, fates) || (seen && !t.of.broken && Leaves(t, last))
  }

  predicate StepStrands(s: State, st: Step) {
    st.Land? && st.batch < |s.held| && |st.fates| == |s.held[st.batch]|
    && LandStrands(Released(s, st.batch), s.held[st.batch], st.fates, st.last)
  }

  /** Since the process started, a flush of the buffer left a line behind or one was written after half a line. */
  predicate Stranded(s: State, steps: seq<Step>)
    decreases |steps|
  {
    if |steps| == 0 then false
    else
      var k := |steps| - 1;
      !steps[k].Restart? && (Stranded(s, steps[..k]) || StepStrands(Run(s, steps[..k]), steps[k]))
  }

  function Weigh(s: State): int { s.dropped + s.past.lost + |s.past.written| + |s.of.buffer| }

  /** The parts of a state that writing a batch leaves alone. */
  predicate SameElse(s: State, t: State) {
    && t.counter == s.counter && t.taken == s.taken && t.queue == s.queue && t.held == s.held
    && t.past.put == s.past.put && t.past.base == s.past.base && t.past.lostBase == s.past.lostBase
    && t.past.lost >= s.past.lost && |t.past.written| >= |s.past.written|
  }

  lemma SpillWeighs(s: State, d: Disk, next: Option<Line>, ahead: nat)
    requires Writing(s.files, s.of, s.past)
    ensures var t := Spilled(s, d, next, ahead);
            && Weigh(t) == Weigh(s) && SameElse(s, t)
            && (t.past.lost > s.past.lost <==> Leaves(s, d))
            && (d.Good? && |s.of.buffer| > 0 ==> t.files.current.tail.NoTail?)
  {
    hide Bytes, IsSuffix, Standing, FileBytes, Torn;
  }

  lemma BufferedWeighs(s: State, l: Line, f: Fate)
    requires Writing(s.files, s.of, s.past) && s.of.open && !s.of.broken
    ensures var (t, ok) := Buffered(s, l, f);
            && Weigh(t) == Weigh(s) + 1 && SameElse(s, t)
            && (t.past.lost > s.past.lost <==> Strands(s, l, f))
  {
    hide Bytes, IsSuffix, Spilled, Leaves, Standing, FileBytes, Torn;
    if s.of.n + l.bytes > BUFFER && s.of.n > 0 {
      SpillWeighs(s, f.first, Some(l), Ahead(s));
      SpillKeeps(s, f.first, Some(l), Ahead(s));
    }
  }

  lemma OneWeighs(s: State, l: Line, f: Fate)
    requires Writing(s.files, s.of, s.past)
    ensures var (t, ok) := WriteOne(s, l, f);
            && Weigh(t) == Weigh(s) + 1 && SameElse(s, t)
            && (t.past.lost > s.past.lost <==> Strands(s, l, f))
  {
    hide Bytes, IsSuffix, Buffered, Standing, FileBytes;
    NoBytes();
    StandingFits(s.files.current);
    if s.of.open || f.opens {
      var o := if s.of.open then s else Opened(s);
      if !o.of.broken {
        BufferedWeighs(o, l, f);
      }
    }
  }

  lemma {:induction false} AllWeighs(s: State, batch: seq<Line>, fates: seq<Fate>)
    requires Retains(s) && |fates| == |batch|
    ensures var (t, seen) := WriteAll(s, batch, fates);
            && Weigh(t) == Weigh(s) + |batch| && SameElse(s, t)
            && (t.past.lost > s.past.lost <==> BatchStrands(s, batch, fates))
  {
    hide Writing, WriteOne, Bytes, Strands;
    if |batch| > 0 {
      var k := |batch| - 1;
      AllWeighs(s, batch[..k], fates[..k]);
      AllKeeps(s, batch[..k], fates[..k]);
      OneWeighs(WriteAll(s, batch[..k], fates[..k]).0, batch[k], fates[k]);
    }
  }

  lemma LandedWeighs(s: State, batch: seq<Line>, fates: seq<Fate>, last: Disk)
    requires Retains(s) && |fates| == |batch|
    ensures var t := Landed(s, batch, fates, last);
            && Weigh(t) == Weigh(s) + |batch| && SameElse(s, t)
            && (t.past.lost > s.past.lost <==> LandStrands(s, batch, fates, last))
  {
    hide Writing, WriteAll, Spilled, Bytes, Leaves;
    AllWeighs(s, batch, fates);
    AllKeeps(s, batch, fates);
    var (t, seen) := WriteAll(s, batch, fates);
    if seen && !t.of.broken {
      SpillWeighs(t, last, None, 0);
      SpillKeeps(t, last, None, 0);
    }
    assert seen ==> t.of.broken ==> t.of.buffer == [] by { assert Writing(t.files, t.of, t.past); BrokenIsEmpty(t); }
  }

  lemma BrokenIsEmpty(s: State)
    requires Writing(s.files, s.of, s.past)
    ensures s.of.broken ==> s.of.buffer == []
  {
  }

  /** Every line this process was handed is queued, drained, written, counted as dropped, or lost uncounted. */
  predicate Accounted(s: State) {
    && s.past.base <= |s.past.written| && s.past.lostBase <= s.past.lost
    && s.past.put == s.dropped + (s.past.lost - s.past.lostBase) + |s.queue| + |Waiting(s.held)|
                     + (|s.past.written| - s.past.base)
  }

  lemma StepAccounts(s: State, st: Step)
    requires Retains(s) && Accounted(s)
    ensures Accounted(Apply(s, st))
    ensures st.Restart? ==> Apply(s, st).past.lost == Apply(s, st).past.lostBase
    ensures !st.Restart? ==>
              SameLosses(s, Apply(s, st)) && (Apply(s, st).past.lost > s.past.lost <==> StepStrands(s, st))
  {
    hide Landed, LandStrands, Bytes, MaxSeq, IsSuffix, Standing, FileBytes;
    match st
    case Take =>
    case Put(l) =>
    case Drain =>
      WaitingConcat(s.held, [s.queue]);
      WaitingOne(s.queue);
    case Restart =>
    case Land(i, fates, last) =>
      if i < |s.held| && |fates| == |s.held[i]| {
        var r := Released(s, i);
        WaitingWithout(s.held, i);
        LandedWeighs(r, s.held[i], fates, last);
        LandedRetains(r, s.held[i], fates, last);
      }
  }

  predicate SameLosses(s: State, t: State) { t.past.lostBase == s.past.lostBase && t.past.lost >= s.past.lost }

  lemma {:induction false} RunAccounts(s: State, steps: seq<Step>)
    requires Retains(s) && Accounted(s) && s.past.lost == s.past.lostBase
    ensures var t := Run(s, steps);
            Retains(t) && Accounted(t) && (t.past.lost > t.past.lostBase <==> Stranded(s, steps))
    decreases |steps|
  {
    hide Retains, Apply, Accounted, StepStrands;
    if |steps| > 0 {
      var k := |steps| - 1;
      RunAccounts(s, steps[..k]);
      var t := Run(s, steps[..k]);
      RunSnoc(s, steps[..k], steps[k]);
      assert steps[..k] + [steps[k]] == steps;
      StepRetains(t, steps[k]);
      StepAccounts(t, steps[k]);
      AccountedLosses(t);
    }
  }

  lemma AccountedLosses(s: State)
    requires Accounted(s)
    ensures s.past.lostBase <= s.past.lost
  {
  }

  lemma RunSnoc(s: State, steps: seq<Step>, st: Step)
    ensures Run(s, steps + [st]) == Apply(Run(s, steps), st)
  {
    hide Apply;
    RunConcat(s, steps, [st]);
    assert [st][1..] == [];
  }

  lemma FreshKeeps()
    ensures Retains(FRESH) && Accounted(FRESH)
  {
    hide Bytes, Waiting, IsSuffix, Standing, FileBytes;
    NoBytes();
    WaitingOne([]);
    NoFileIsEmpty();
    var none: seq<Line> := [];
    assert none + none == none;
    NoneIsSuffix();
  }

  lemma NoneIsSuffix()
    ensures IsSuffix([], [])
  {
  }

  /** Over every run the drop counter never exceeds the lines handed in since the process started less those
      queued, drained and written; it is that number if and only if no line was stranded: left in the buffer by a
      failed flush, or written behind half a line. */
  lemma DropsExactIff(steps: seq<Step>)
    ensures var s := Run(FRESH, steps);
            var gone := s.past.put - |s.queue| - |Waiting(s.held)| - (|s.past.written| - s.past.base);
            s.dropped <= gone && (s.dropped == gone <==> !Stranded(FRESH, steps))
  {
    hide Run, Retains, Stranded, Waiting;
    FreshKeeps();
    RunAccounts(FRESH, steps);
  }

  const FAIR := Fate(true, Good, Good)

  lemma AllOfOne(s: State, l: Line, f: Fate)
    ensures WriteAll(s, [l], [f]) == WriteOne(s, l, f)
  {
    hide WriteOne;
    assert [l][..0] == [] && [f][..0] == [];
  }

  lemma RunOne(s: State, st: Step)
    ensures Run(s, [st]) == Apply(s, st)
  {
    hide Apply;
    assert [st][1..] == [];
  }

  /** A line that fits the buffer, on a disk that then refuses the flush: it is not in the file, not queued, not
      held, and not counted. */
  lemma UncountedLine(l: Line)
    requires l.entry.seqNo == 1 && l.bytes <= BUFFER
    ensures var s := Run(FRESH, [Take, Put(l), Drain, Land(0, [FAIR], Fails(0, 0))]);
            && s.past.put == 1 && s.dropped == 0
            && s.queue == [] && s.held == [] && s.files == FRESH.files
  {
    hide Run, Bytes, Landed;
    assert [Take, Put(l), Drain, Land(0, [FAIR], Fails(0, 0))]
        == (([Take] + [Put(l)]) + [Drain]) + [Land(0, [FAIR], Fails(0, 0))];
    RunSnoc(FRESH, ([Take] + [Put(l)]) + [Drain], Land(0, [FAIR], Fails(0, 0)));
    RunSnoc(FRESH, [Take] + [Put(l)], Drain);
    RunSnoc(FRESH, [Take], Put(l));
    RunOne(FRESH, Take);
    assert [] + [l] == [l] && [] + [[l]] == [[l]];
    var d := FRESH.(counter := 1, taken := {}, held := [[l]], past := FRESH.past.(put := 1));
    assert Run(FRESH, ([Take] + [Put(l)]) + [Drain]) == d;
    LostOnFlush(Released(d, 0), l);
  }

  /** An empty store writes a line that fits the buffer, and the flush fails at once. */
  lemma LostOnFlush(s: State, l: Line)
    requires s.files == FRESH.files && s.of == CLOSED && l.bytes <= BUFFER
    ensures var t := Landed(s, [l], [FAIR], Fails(0, 0));
            && t.files == s.files && t.dropped == s.dropped
            && t.queue == s.queue && t.held == s.held && t.past.put == s.past.put
  {
    hide FileBytes;
    NoFileIsEmpty();
    AllOfOne(s, l, FAIR);
    assert [] + [l] == [l] && [l][..0] == [];
  }

  // ---- Sequence numbers

  predicate DistinctSeqs(ls: seq<Line>) { forall i, j :: 0 <= i < j < |ls| ==> ls[i].entry.seqNo != ls[j].entry.seqNo }

  /** The lines in a file, the one short of its newline included. */
  function Contents(f: LogFile): seq<Line> { Standing(f) + (if f.tail.Cut? then [f.tail.line] else []) }

  function Held(s: State): seq<Line> { Contents(s.files.older) + Contents(s.files.current) }

  /** All lines in a file, or those that a scan finds. */
  function Seen(f: LogFile, all: bool): seq<Line> { if all then Contents(f) else Scanned(f) }

  function SeenInBoth(s: State, all: bool): seq<Line> { if all then Held(s) else Readable(s) }

  /** The lines in the files and the buffer. */
  function Stored(s: State, all: bool): multiset<Line> {
    multiset(Seen(s.files.older, all)) + multiset(Seen(s.files.current, all)) + multiset(s.of.buffer)
  }

  function Pool(s: State, all: bool): multiset<Line> { Stored(s, all) + multiset(s.queue) + multiset(Waiting(s.held)) }

  ghost predicate Unique(pool: multiset<Line>) {
    && (forall l :: l in pool ==> pool[l] == 1)
    && (forall a, b :: a in pool && b in pool && a.entry.seqNo == b.entry.seqNo ==> a == b)
  }

  /** No number is carried twice among the lines in files, found or all of them, in batches, queue or hand, and all are
      between 1 and the counter. */
  ghost predicate Numbered(s: State, all: bool) {
    && Unique(Pool(s, all))
    && (forall l :: l in Pool(s, all) ==> 1 <= l.entry.seqNo <= s.counter && l.entry.seqNo !in s.taken)
    && (forall k :: k in s.taken ==> 1 <= k <= s.counter)
  }

  lemma FreshNumbers(all: bool)
    ensures Numbered(FRESH, all)
  {
    NoFileIsEmpty();
    assert Pool(FRESH, all) == multiset{};
  }

  lemma SplitLines(ls: seq<Line>, m: nat)
    requires m <= |ls|
    ensures multiset(ls) == multiset(ls[..m]) + multiset(ls[m..])
  {
    assert ls == ls[..m] + ls[m..];
  }

  lemma {:induction false} FoundConcat(a: seq<Piece>, b: seq<Piece>)
    ensures Found(a + b) == Found(a) + (if Clear(a) then Found(b) else [])
    ensures Clear(a + b) <==> Clear(a) && Clear(b)
  {
    ClearConcat(a, b);
    if |b| == 0 {
      assert a + b == a;
    } else {
      var n := |b| - 1;
      assert (a + b)[..|a + b| - 1] == a + b[..n];
      FoundConcat(a, b[..n]);
    }
  }

  lemma ClearConcat(a: seq<Piece>, b: seq<Piece>)
    ensures Clear(a + b) <==> Clear(a) && Clear(b)
  {
    assert forall i :: 0 <= i < |a| ==> (a + b)[i] == a[i];
    assert forall i :: 0 <= i < |b| ==> (a + b)[|a| + i] == b[i];
  }

  lemma {:induction false} FoundWholes(ls: seq<Line>)
    ensures multiset(Found(Wholes(ls))) <= multiset(ls)
  {
    if |ls| > 0 {
      var n := |ls| - 1;
      FoundWholes(ls[..n]);
      assert Wholes(ls)[..n] == Wholes(ls[..n]);
      assert ls == ls[..n] + [ls[n]];
    }
  }

  /** Lines written to a file stand in it and are found in it at most once. */
  lemma SinkPools(f: LogFile, past: History, ls: seq<Line>, all: bool)
    ensures multiset(Seen(Sink(f, past, ls).0, all)) <= multiset(Seen(f, all)) + multiset(ls)
  {
    if all {
      SinkContents(f, past, ls);
    } else {
      SinkScanned(f, past, ls);
    }
  }

  lemma SinkContents(f: LogFile, past: History, ls: seq<Line>)
    ensures multiset(Contents(Sink(f, past, ls).0)) <= multiset(Contents(f)) + multiset(ls)
  {
    hide Sink, Standing;
    SinkEffect(f, past, ls);
    if |ls| > 0 {
      SplitLines(ls, 1);
    } else {
      SinkNothing(f, past, ls);
    }
  }

  lemma SinkNothing(f: LogFile, past: History, ls: seq<Line>)
    requires |ls| == 0
    ensures Sink(f, past, ls) == (f, past)
  {
  }

  lemma SinkScanned(f: LogFile, past: History, ls: seq<Line>)
    ensures multiset(Scanned(Sink(f, past, ls).0)) <= multiset(Scanned(f)) + multiset(ls)
  {
    hide Found, Clear, Wholes;
    if |ls| > 0 {
      FoundWholes(ls);
      FoundWholes(ls[1..]);
      FoundConcat(f.pieces, Wholes(ls));
      if !f.tail.NoTail? {
        var scrap := Scrap(TailBytes(f.tail) + ls[0].bytes);
        FoundScrap(scrap);
        FoundConcat(f.pieces, [scrap]);
        FoundConcat(f.pieces + [scrap], Wholes(ls[1..]));
        SplitLines(ls, 1);
      }
    }
  }

  lemma FoundScrap(p: Piece)
    requires p.Scrap?
    ensures Found([p]) == []
  {
    assert [p][..0] == [];
  }

  lemma TearPools(s: State, half: nat, l: Line, all: bool)
    ensures Stored(Halved(s, half, l), all) <= Stored(s, all) + multiset{l}
    ensures Stored(Broken(s), all) == Stored(s, all)
  {
    hide Found, Clear, Lines;
  }

  /** A part of the buffer reaches the file and the rest is gone. */
  lemma SunkPools(s: State, m: nat, lost: nat, all: bool)
    requires m <= |s.of.buffer|
    ensures var t := Sunk(s, s.of.buffer[..m]);
            Stored(Emptied(t.(past := t.past.(lost := lost))), all) + multiset(s.of.buffer[m..]) <= Stored(s, all)
  {
    hide Seen, Sink;
    SinkPools(s.files.current, s.past, s.of.buffer[..m], all);
    SplitLines(s.of.buffer, m);
  }

  lemma SpillPools(s: State, d: Disk, next: Option<Line>, ahead: nat, all: bool)
    ensures Stored(Spilled(s, d, next, ahead), all) <= Stored(s, all)
              + (if d.Fails? && next.Some? then multiset{next.value} else multiset{})
  {
    hide Stored, Sunk, Halved, Broken;
    var b := s.of.buffer;
    match d
    case Good =>
      SunkPools(s, |b|, s.past.lost, all);
      SunkAll(s, all);
    case Fails(lines, half) =>
      var m := Min(lines, |b|);
      var t := Sunk(s, b[..m]);
      var lost := t.past.lost + (|b| - m);
      SunkPools(s, m, lost, all);
      var u := Emptied(t.(past := t.past.(lost := lost)));
      if m < |b| {
        TearPools(u, half + (if m == 0 then s.of.lead else 0), b[m], all);
        assert b[m] in b[m..] && multiset{b[m]} <= multiset(b[m..]);
      } else if next.Some? {
        TearPools(u, Min(half, ahead), next.value, all);
      } else {
        TearPools(u, 0, Line(Entry(0, ""), 1), all);
      }
  }

  lemma SunkAll(s: State, all: bool)
    ensures var t := Sunk(s, s.of.buffer[..|s.of.buffer|]);
            Stored(Emptied(Sunk(s, s.of.buffer)), all) == Stored(Emptied(t.(past := t.past.(lost := s.past.lost))), all)
  {
    hide Seen, Sink;
    assert s.of.buffer[..|s.of.buffer|] == s.of.buffer;
  }

  lemma DirectPools(s: State, l: Line, d: Disk, ahead: nat, all: bool)
    ensures Stored(Direct(s, l, d, ahead).0, all) <= Stored(s, all) + multiset{l}
  {
    hide Seen, Sink, Torn;
    match d
    case Good => SinkPools(s.files.current, s.past, [l], all);
    case Fails(_, half) => TearPools(s, ahead + half, l, all);
  }

  lemma BufferedPools(s: State, l: Line, f: Fate, all: bool)
    requires Writing(s.files, s.of, s.past) && s.of.open && !s.of.broken
    ensures Stored(Buffered(s, l, f).0, all) <= Stored(s, all) + multiset{l}
  {
    hide Spilled, Direct, Writing, Stored;
    if s.of.n + l.bytes <= BUFFER {
      JoinPools(s, l, s.of.buffer, all);
    } else if s.of.n == 0 {
      DirectPools(s, l, f.first, 0, all);
    } else {
      var t := Spilled(s, f.first, Some(l), Ahead(s));
      SpillPools(s, f.first, Some(l), Ahead(s), all);
      SpillKeeps(s, f.first, Some(l), Ahead(s));
      JoinPools(t, l, [], all);
      DirectPools(t, l, f.second, Ahead(s), all);
      CountedPools(t, all);
    }
  }

  /** A line enters the buffer. */
  lemma JoinPools(s: State, l: Line, buffer: seq<Line>, all: bool)
    requires s.of.buffer == buffer
    ensures forall of: Handle :: of.buffer == buffer + [l] ==> Stored(s.(of := of), all) == Stored(s, all) + multiset{l}
  {
    hide Seen;
  }

  lemma CountedPools(s: State, all: bool)
    ensures Stored(Counted(s), all) == Stored(s, all)
  {
    hide Seen;
  }

  lemma OnePools(s: State, l: Line, f: Fate, all: bool)
    requires Writing(s.files, s.of, s.past)
    ensures Stored(WriteOne(s, l, f).0, all) <= Stored(s, all) + multiset{l}
  {
    hide Buffered, Bytes, IsSuffix, Seen, Standing, FileBytes;
    NoBytes();
    StandingFits(s.files.current);
    if s.of.open || f.opens {
      var o := if s.of.open then s else Opened(s);
      if !o.of.broken {
        BufferedPools(o, l, f, all);
      }
    }
  }

  lemma {:induction false} AllPools(s: State, batch: seq<Line>, fates: seq<Fate>, all: bool)
    requires Retains(s) && |fates| == |batch|
    ensures Stored(WriteAll(s, batch, fates).0, all) <= Stored(s, all) + multiset(batch)
  {
    hide Writing, WriteOne, Bytes, Stored;
    if |batch| > 0 {
      var k := |batch| - 1;
      AllPools(s, batch[..k], fates[..k], all);
      AllKeeps(s, batch[..k], fates[..k]);
      OnePools(WriteAll(s, batch[..k], fates[..k]).0, batch[k], fates[k], all);
      SplitLines(batch, k);
      assert batch[k..] == [batch[k]];
    }
  }

  lemma LandedPools(s: State, batch: seq<Line>, fates: seq<Fate>, last: Disk, all: bool)
    requires Retains(s) && |fates| == |batch|
    ensures Stored(Landed(s, batch, fates, last), all) <= Stored(s, all) + multiset(batch)
  {
    hide Writing, WriteAll, Spilled, Bytes, Stored;
    AllPools(s, batch, fates, all);
    var t := WriteAll(s, batch, fates).0;
    SpillPools(t, last, None, 0, all);
    RotatedPools(t, all);
    RotatedPools(Spilled(t, last, None, 0), all);
  }

  lemma RotatedPools(s: State, all: bool)
    ensures Stored(Rotated(s), all) <= Stored(s, all)
  {
    hide Scanned, Contents;
    NoFileIsEmpty();
  }

  lemma FewerAreNumbered(s: State, t: State, all: bool)
    requires Numbered(s, all) && Pool(t, all) <= Pool(s, all) && t.taken == s.taken && t.counter == s.counter
    ensures Numbered(t, all)
  {
    hide Pool;
    assert forall l :: l in Pool(t, all) ==> l in Pool(s, all) && Pool(t, all)[l] <= Pool(s, all)[l];
  }

  lemma LandNumbers(s: State, i: nat, fates: seq<Fate>, last: Disk, all: bool)
    requires Retains(s) && Numbered(s, all) && i < |s.held| && |fates| == |s.held[i]|
    ensures Numbered(Landed(Released(s, i), s.held[i], fates, last), all)
  {
    hide Landed, Stored, Numbered, Bytes, IsSuffix;
    var r := Released(s, i);
    var t := Landed(r, s.held[i], fates, last);
    WaitingWithout(s.held, i);
    LandedPools(r, s.held[i], fates, last, all);
    LandedWeighs(r, s.held[i], fates, last);
    SameStored(r, s, all);
    assert Pool(t, all) <= Pool(s, all);
    FewerAreNumbered(s, t, all);
  }

  lemma SameStored(s: State, t: State, all: bool)
    requires s.files == t.files && s.of == t.of
    ensures Stored(s, all) == Stored(t, all)
  {
  }

  lemma PutNumbers(s: State, l: Line, all: bool)
    requires Numbered(s, all) && l.entry.seqNo in s.taken
    ensures Numbered(Queued(s, l), all)
  {
    hide Waiting, Pool;
    var t := Queued(s, l);
    PutPools(s, l, all);
    forall m | m in Pool(t, all)
      ensures (m == l && Pool(s, all)[l] == 0) || (m in Pool(s, all) && m.entry.seqNo != l.entry.seqNo) {}
    assert forall m :: m in Pool(t, all) ==> Pool(t, all)[m] <= Pool(s, all)[m] + if m == l then 1 else 0;
  }

  lemma PutPools(s: State, l: Line, all: bool)
    ensures Pool(Queued(s, l), all) <= Pool(s, all) + multiset{l}
  {
    hide Waiting;
  }

  lemma {:induction false} MaxSeqBounds(ls: seq<Line>)
    ensures forall l :: l in ls ==> l.entry.seqNo <= MaxSeq(ls)
  {
    if |ls| > 0 {
      MaxSeqBounds(ls[..|ls| - 1]);
      assert ls == ls[..|ls| - 1] + [ls[|ls| - 1]];
    }
  }

  /** No line in the files carries a number above all that a scan finds. */
  predicate Resumes(s: State) { forall l :: l in Held(s) ==> l.entry.seqNo <= MaxSeq(Readable(s)) }

  lemma RestartNumbers(s: State, all: bool)
    requires Numbered(s, all) && (all ==> Resumes(s))
    ensures Numbered(Restarted(s), all)
  {
    hide MaxSeq, Pool, Readable, Held;
    var t, files := Restarted(s), SeenInBoth(s, all);
    MaxSeqBounds(Readable(s));
    RestartPools(s, all);
    forall l | l in Pool(t, all) ensures l in files && l in Pool(s, all) && Pool(t, all)[l] <= Pool(s, all)[l] {
      assert l in multiset(files);
    }
  }

  lemma RestartPools(s: State, all: bool)
    ensures Pool(Restarted(s), all) == multiset(SeenInBoth(s, all)) <= Pool(s, all)
  {
    hide MaxSeq, Scanned, Contents;
  }

  lemma TakeNumbers(s: State, all: bool)
    requires Numbered(s, all)
    ensures Numbered(Apply(s, Take), all)
  {
    hide Pool;
    SamePool(Apply(s, Take), s, all);
  }

  lemma SamePool(s: State, t: State, all: bool)
    requires s.files == t.files && s.of == t.of && s.queue == t.queue && s.held == t.held
    ensures Pool(s, all) == Pool(t, all)
  {
    hide Stored, Waiting;
    SameStored(s, t, all);
  }

  lemma DrainNumbers(s: State, all: bool)
    requires Numbered(s, all)
    ensures Numbered(Drained(s), all)
  {
    hide Numbered, Pool;
    DrainPools(s, all);
    FewerAreNumbered(s, Drained(s), all);
  }

  lemma DrainPools(s: State, all: bool)
    ensures Pool(Drained(s), all) == Pool(s, all)
  {
    hide Stored, Waiting;
    SameStored(Drained(s), s, all);
    WaitingConcat(s.held, [s.queue]);
    WaitingOne(s.queue);
  }

  lemma StepNumbers(s: State, st: Step, all: bool)
    requires Retains(s) && Numbered(s, all) && (all && st.Restart? ==> Resumes(s))
    ensures Numbered(Apply(s, st), all)
  {
    hide Retains, Landed, Queued, Restarted, Resumes, Numbered, Drained;
    match st
    case Take => TakeNumbers(s, all);
    case Put(l) =>
      if l.entry.seqNo in s.taken {
        assert Apply(s, st) == Queued(s, l);
        PutNumbers(s, l, all);
      }
    case Drain => DrainNumbers(s, all);
    case Restart => RestartNumbers(s, all);
    case Land(i, fates, last) =>
      if i < |s.held| && |fates| == |s.held[i]| {
        LandNumbers(s, i, fates, last, all);
      }
  }

  /** Every restart of the run resumes above all numbers in the files. */
  predicate AllResume(s: State, steps: seq<Step>)
    decreases |steps|
  {
    |steps| > 0 ==> (steps[0].Restart? ==> Resumes(s)) && AllResume(Apply(s, steps[0]), steps[1..])
  }

  lemma {:induction false} RunNumbers(s: State, steps: seq<Step>, all: bool)
    requires Retains(s) && Numbered(s, all) && (all ==> AllResume(s, steps))
    ensures Retains(Run(s, steps)) && Numbered(Run(s, steps), all)
    decreases |steps|
  {
    hide Retains, Numbered, Apply, Resumes;
    if |steps| > 0 {
      StepNumbers(s, steps[0], all);
      StepRetains(s, steps[0]);
      RunNumbers(Apply(s, steps[0]), steps[1..], all);
    }
  }

  lemma FilesNumbered(s: State, all: bool)
    requires Numbered(s, all)
    ensures DistinctSeqs(SeenInBoth(s, all)) && forall l :: l in SeenInBoth(s, all) ==> l.entry.seqNo >= 1
  {
    hide Waiting, Scanned, Contents;
    var ls := SeenInBoth(s, all);
    assert multiset(ls) <= Pool(s, all);
    forall l | l in ls ensures l in Pool(s, all) && l.entry.seqNo >= 1 {
      assert l in multiset(ls);
    }
    forall i, j | 0 <= i < j < |ls| ensures ls[i].entry.seqNo != ls[j].entry.seqNo {
      SplitLines(ls, j);
      assert ls[i] == ls[..j][i] && ls[j] == ls[j..][0];
      assert ls[i] in multiset(ls[..j]) && ls[j] in multiset(ls[j..]);
    }
  }

  /** After any run, restarts and disk failures included, the lines standing in the two files are the newest of all
      written, every one of them unless the older file is past four mebibytes or lines were lost uncounted; those in
      the active file are within four mebibytes; and no two lines that can be read share a sequence number. */
  lemma FilesHoldNewest(steps: seq<Step>)
    ensures var s := Run(FRESH, steps);
            var all := Standing(s.files.older) + Standing(s.files.current);
            && IsSuffix(all, s.past.written)
            && (all == s.past.written || FileBytes(s.files.older) > 0x40_0000 || s.past.lost > 0)
            && Bytes(Standing(s.files.current)) <= 0x40_0000
            && DistinctSeqs(Readable(s))
            && (forall l :: l in Readable(s) ==> l.entry.seqNo >= 1)
  {
    hide Run, Bytes, IsSuffix, DistinctSeqs, Numbered, Accounted, Standing, FileBytes, Readable;
    FreshKeeps();
    FreshNumbers(false);
    RunNumbers(FRESH, steps, false);
    FilesNumbered(Run(FRESH, steps), false);
  }

  /** All lines in the files, found or not, carry different numbers as long as every restart of the run resumed above
      all numbers in them. */
  lemma HeldAreDistinct(steps: seq<Step>)
    requires AllResume(FRESH, steps)
    ensures DistinctSeqs(Held(Run(FRESH, steps)))
  {
    hide Run, DistinctSeqs, Numbered, Accounted, Retains, Held, AllResume;
    FreshKeeps();
    FreshNumbers(true);
    RunNumbers(FRESH, steps, true);
    FilesNumbered(Run(FRESH, steps), true);
  }
}
