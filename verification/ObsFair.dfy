/** The queue, the batches and the write buffer over every run, and what is written when the disk does not fail
    (server/internal/obs/store.go). */
module ObsFair {
  import opened ObsRuns
  import opened ObsStore
  import opened ObsTails
  import opened Wrappers

  // ---- The queue

  /** Over every run, a line handed in is dropped exactly when 1024 lines are queued, of which there are never more, and
      otherwise joins the queue at its end. */
  lemma DroppedIffFull(steps: seq<Step>, l: Line)
    requires l.entry.seqNo in Run(FRESH, steps).taken
    ensures var s := Run(FRESH, steps);
            var t := Apply(s, Put(l));
            && |s.queue| <= 1024
            && (t.dropped == s.dropped + 1 <==> |s.queue| == 1024)
            && (t.dropped == s.dropped <==> t.queue == s.queue + [l])
            && (t.dropped != s.dropped ==> t.queue == s.queue)
  {
    QueueBounded(FRESH, steps);
    var s := Run(FRESH, steps);
    assert |s.queue + [l]| > |s.queue|;
  }

  lemma {:induction false} QueueBounded(s: State, steps: seq<Step>)
    requires |s.queue| <= CHAN_CAP
    ensures |Run(s, steps).queue| <= CHAN_CAP
    decreases |steps|
  {
    if |steps| > 0 {
      StepBounded(s, steps[0]);
      QueueBounded(Apply(s, steps[0]), steps[1..]);
    }
  }

  lemma StepBounded(s: State, st: Step)
    requires |s.queue| <= CHAN_CAP
    ensures |Apply(s, st).queue| <= CHAN_CAP
  {
    hide WriteAll, Finished;
    if st.Land? && st.batch < |s.held| && |st.fates| == |s.held[st.batch]| {
      var r := Released(s, st.batch);
      LandedElse(r, s.held[st.batch], st.fates, st.last);
    }
  }

  /** No batch is empty. */
  lemma {:induction false} BatchesHoldLines(s: State, steps: seq<Step>)
    requires forall b :: b in s.held ==> b != []
    ensures forall b :: b in Run(s, steps).held ==> b != []
    decreases |steps|
  {
    if |steps| > 0 {
      StepHoldsLines(s, steps[0]);
      BatchesHoldLines(Apply(s, steps[0]), steps[1..]);
    }
  }

  lemma StepHoldsLines(s: State, st: Step)
    requires forall b :: b in s.held ==> b != []
    ensures forall b :: b in Apply(s, st).held ==> b != []
  {
    hide Landed, Readable;
    if Valid(s, st) {
      assert forall b :: b in Released(s, st.batch).held ==> b in s.held;
      LandedElse(Released(s, st.batch), s.held[st.batch], st.fates, st.last);
    }
  }

  // ---- Writing a batch

  /** A line is taken or counted as dropped, never both. */
  lemma TakenOrCounted(s: State, l: Line, f: Fate)
    ensures var (t, ok) := WriteOne(s, l, f);
            t.dropped == s.dropped + (if ok then 0 else 1) && t.files.older == s.files.older
  {
    hide Sink, Torn, FileBytes;
  }

  lemma {:induction false} TakenUnlessCounted(s: State, batch: seq<Line>, fates: seq<Fate>)
    requires |fates| == |batch|
    ensures var (t, seen) := WriteAll(s, batch, fates);
            && s.dropped <= t.dropped <= s.dropped + |batch| && t.files.older == s.files.older
            && (seen <==> t.dropped < s.dropped + |batch|)
  {
    hide WriteOne;
    if |batch| > 0 {
      var k := |batch| - 1;
      TakenUnlessCounted(s, batch[..k], fates[..k]);
      TakenOrCounted(WriteAll(s, batch[..k], fates[..k]).0, batch[k], fates[k]);
    }
  }

  /** A batch of which every line is counted as dropped rotates nothing, on any disk. */
  lemma RefusedBatchRotatesNothing(s: State, batch: seq<Line>, fates: seq<Fate>, last: Disk)
    requires |fates| == |batch| && Landed(s, batch, fates, last).dropped == s.dropped + |batch|
    ensures Landed(s, batch, fates, last).files.older == s.files.older
  {
    hide WriteAll, Sink, Torn;
    TakenUnlessCounted(s, batch, fates);
  }

  predicate NoFault(st: Step) {
    st.Land? ==> st.last.Good? && forall i :: 0 <= i < |st.fates| ==> st.fates[i] == FAIR
  }

  predicate Valid(s: State, st: Step) { st.Land? && st.batch < |s.held| && |st.fates| == |s.held[st.batch]| }

  /** Between batches: whole lines only, nothing buffered, and the store's own size is the file's. */
  predicate Settled(s: State) {
    && s.files.current.tail == NoTail && s.files.current.pieces == Wholes(Standing(s.files.current))
    && !s.of.broken && s.of.buffer == [] && s.of.n == 0
    && (s.of.open ==> s.of.size == Sum(s.files.current.pieces))
  }

  /** Since `s` the lines `done` went into the active file or, the last of them, into the buffer. */
  ghost predicate Since(s: State, t: State, done: seq<Line>) {
    && t.files.older == s.files.older && t.files.current.tail == NoTail && !t.of.broken
    && (t.of.n == 0 <==> t.of.buffer == []) && (!t.of.open ==> t.of.buffer == [])
    && t.files.current.pieces + Wholes(t.of.buffer) == s.files.current.pieces + Wholes(done)
    && t.past.written + t.of.buffer == s.past.written + done
    && t.past.lost == s.past.lost && t.dropped == s.dropped
    && (t.of.open ==> t.of.size == Sum(s.files.current.pieces) + Bytes(done))
  }

  lemma WholesConcat(a: seq<Line>, b: seq<Line>)
    ensures Wholes(a + b) == Wholes(a) + Wholes(b)
  {
  }

  /** The buffer reaches the file. */
  lemma SpillSince(s: State, t: State, done: seq<Line>, next: Option<Line>, ahead: nat)
    requires Since(s, t, done) && t.of.open
    ensures var u := Spilled(t, Good, next, ahead); Since(s, u, done) && u.of.open && u.of.buffer == []
  {
    hide Bytes, Sum;
    var u := Spilled(t, Good, next, ahead);
    assert u.files.current.pieces == t.files.current.pieces + Wholes(t.of.buffer);
    assert u.past.written + [] == u.past.written && u.files.current.pieces + Wholes([]) == u.files.current.pieces;
  }

  lemma OneMore(s: State, t: State, done: seq<Line>, l: Line, u: State)
    requires Since(s, t, done) && t.of.open && u.of.open && !u.of.broken
    requires u.files.older == t.files.older && u.files.current.tail == NoTail
    requires u.past.lost == t.past.lost && u.dropped == t.dropped && u.of.size == t.of.size + l.bytes
    requires u.of.n == 0 <==> u.of.buffer == []
    requires u.files.current.pieces + Wholes(u.of.buffer)
             == t.files.current.pieces + Wholes(t.of.buffer) + [Whole(l)]
    requires u.past.written + u.of.buffer == t.past.written + t.of.buffer + [l]
    ensures Since(s, u, done + [l])
  {
    hide Sum, Bytes;
    WholesConcat(done, [l]);
    assert Wholes([l]) == [Whole(l)];
    assert s.files.current.pieces + Wholes(done) + [Whole(l)] == s.files.current.pieces + Wholes(done + [l]);
    assert s.past.written + done + [l] == s.past.written + (done + [l]);
    BytesConcat(done, [l]);
    BytesOne(l);
  }

  /** The direct write of a long line. */
  lemma DirectSince(s: State, t: State, done: seq<Line>, l: Line, ahead: nat)
    requires Since(s, t, done) && t.of.open && t.of.buffer == []
    ensures var (u, ok) := Direct(t, l, Good, ahead); ok && u.of.open && Since(s, u, done + [l])
  {
    hide Bytes, Sum;
    var u := Direct(t, l, Good, ahead).0;
    assert Wholes([l]) == [Whole(l)];
    assert u.files.current.pieces + Wholes([]) == t.files.current.pieces + Wholes([]) + [Whole(l)];
    assert u.past.written + [] == t.past.written + [] + [l];
    OneMore(s, t, done, l, u);
  }

  lemma JoinSince(s: State, t: State, done: seq<Line>, l: Line, n: Size, lead: nat)
    requires Since(s, t, done) && t.of.open
    ensures Since(s, Sized(t.(of := t.of.(buffer := t.of.buffer + [l], n := n, lead := lead)), l), done + [l])
  {
    hide Bytes, Sum;
    var u := Sized(t.(of := t.of.(buffer := t.of.buffer + [l], n := n, lead := lead)), l);
    WholesConcat(t.of.buffer, [l]);
    assert Wholes([l]) == [Whole(l)];
    assert u.files.current.pieces + Wholes(u.of.buffer) == t.files.current.pieces + Wholes(t.of.buffer) + [Whole(l)];
    assert u.past.written + u.of.buffer == t.past.written + t.of.buffer + [l];
    OneMore(s, t, done, l, u);
  }

  lemma BufferedSince(s: State, t: State, done: seq<Line>, l: Line)
    requires Since(s, t, done) && t.of.open
    ensures var (u, ok) := Buffered(t, l, FAIR); ok && u.of.open && Since(s, u, done + [l])
  {
    hide Since, Spilled, Direct;
    if t.of.n + l.bytes <= BUFFER {
      JoinSince(s, t, done, l, t.of.n + l.bytes, t.of.lead);
    } else if t.of.n == 0 {
      assert t.of.buffer == [] by { NoneBuffered(s, t, done); }
      DirectSince(s, t, done, l, 0);
    } else {
      var ahead := Ahead(t);
      SpillSince(s, t, done, Some(l), ahead);
      var u := Spilled(t, Good, Some(l), ahead);
      if ahead < l.bytes <= ahead + BUFFER {
        assert u.of.buffer + [l] == [l];
        JoinSince(s, u, done, l, l.bytes - ahead, ahead);
      } else {
        DirectSince(s, u, done, l, ahead);
      }
    }
  }

  lemma NoneBuffered(s: State, t: State, done: seq<Line>)
    requires Since(s, t, done) && t.of.n == 0
    ensures t.of.buffer == []
  {
  }

  lemma OpenedSince(s: State)
    requires Settled(s) && !s.of.open
    ensures Since(s, Opened(s), [])
  {
    NoBytes();
  }

  lemma OneSince(s: State, t: State, done: seq<Line>, l: Line)
    requires Since(s, t, done) && Settled(s) && (t.of.open || (done == [] && t == s))
    ensures var (u, ok) := WriteOne(t, l, FAIR); ok && u.of.open && Since(s, u, done + [l])
  {
    hide Buffered, FileBytes, Settled, Since;
    assert !t.of.broken by { NotBroken(s, t, done); }
    if t.of.open {
      BufferedSince(s, t, done, l);
    } else {
      OpenedSince(s);
      BufferedSince(s, Opened(s), [], l);
    }
  }

  lemma {:induction false} AllSince(s: State, batch: seq<Line>, fates: seq<Fate>)
    requires Settled(s) && |fates| == |batch| && forall i :: 0 <= i < |fates| ==> fates[i] == FAIR
    ensures var (t, seen) := WriteAll(s, batch, fates);
            Since(s, t, batch) && (seen <==> batch != []) && (seen ==> t.of.open) && (!seen ==> t == s)
  {
    hide Since, Settled, WriteOne;
    if |batch| == 0 {
      StartSince(s);
    } else {
      var k := |batch| - 1;
      AllSince(s, batch[..k], fates[..k]);
      OneSince(s, WriteAll(s, batch[..k], fates[..k]).0, batch[..k], batch[k]);
      assert batch[..k] + [batch[k]] == batch;
    }
  }

  lemma StartSince(s: State)
    requires Settled(s)
    ensures Since(s, s, [])
  {
    NoBytes();
  }

  lemma NotBroken(s: State, t: State, done: seq<Line>)
    requires Since(s, t, done)
    ensures !t.of.broken
  {
  }

  /** A batch lands as a whole, behind what was written before. */
  lemma LandSince(s: State, batch: seq<Line>, fates: seq<Fate>)
    requires Settled(s) && |fates| == |batch| && forall i :: 0 <= i < |fates| ==> fates[i] == FAIR
    ensures var t := Landed(s, batch, fates, Good);
            var before, now := s.files, t.files;
            && Settled(t) && t.past.written == s.past.written + batch
            && t.past.lost == s.past.lost && t.dropped == s.dropped
            && if batch != [] && Bytes(Standing(before.current)) + Bytes(batch) > 0x40_0000
               then Standing(now.older) == Standing(before.current) + batch && now.current == NO_FILE
               else now.older == before.older && Standing(now.current) == Standing(before.current) + batch
  {
    hide Since, Bytes, Sum, Lines, Spilled, Settled;
    AllSince(s, batch, fates);
    var (t, seen) := WriteAll(s, batch, fates);
    if seen {
      SpillSince(s, t, batch, None, 0);
      assert !t.of.broken by { NotBroken(s, t, batch); }
      var u := Spilled(t, Good, None, 0);
      LandedAt(s, u, batch);
      RotatedSettles(u);
    } else {
      assert s.past.written + [] == s.past.written;
      assert Standing(s.files.current) + [] == Standing(s.files.current);
    }
  }

  lemma RotatedSettles(s: State)
    ensures Settled(Rotated(s))
  {
  }

  lemma LandedAt(s: State, t: State, batch: seq<Line>)
    requires Settled(s) && Since(s, t, batch) && t.of.open && t.of.buffer == []
    ensures Settled(t) && t.files.older == s.files.older && t.past.written == s.past.written + batch
    ensures t.past.lost == s.past.lost && t.dropped == s.dropped
    ensures Standing(t.files.current) == Standing(s.files.current) + batch
    ensures t.of.size == Bytes(Standing(s.files.current)) + Bytes(batch)
  {
    hide Sum, Lines, Bytes;
    var was := s.files.current;
    PiecesConcat(was.pieces, Wholes(batch));
    WholesAre(batch);
    WholesAre(Standing(was));
    WholesConcat(Standing(was), batch);
    assert t.files.current.pieces + Wholes([]) == t.files.current.pieces;
    assert t.past.written + [] == t.past.written;
  }

  lemma StepSettles(s: State, st: Step)
    requires Settled(s) && NoFault(st)
    ensures Settled(Apply(s, st))
    ensures Apply(s, st).past.written == s.past.written + if Valid(s, st) then s.held[st.batch] else []
    ensures Apply(s, st).past.lost == s.past.lost
  {
    hide Landed, Standing, Readable;
    assert s.past.written + [] == s.past.written;
    if Valid(s, st) {
      SettledReleased(s, st.batch);
      LandSince(Released(s, st.batch), s.held[st.batch], st.fates);
    }
  }

  lemma SettledReleased(s: State, i: nat)
    requires Settled(s) && i < |s.held|
    ensures Settled(Released(s, i))
  {
  }

  lemma {:induction false} RunSettles(s: State, steps: seq<Step>)
    requires Settled(s) && forall i :: 0 <= i < |steps| ==> NoFault(steps[i])
    ensures var t := Run(s, steps);
            Settled(t) && t.past.written == s.past.written + Landings(s, steps) && t.past.lost == s.past.lost
    decreases |steps|
  {
    hide Settled, Apply, NoFault, Valid;
    if |steps| > 0 {
      StepSettles(s, steps[0]);
      RunSettles(Apply(s, steps[0]), steps[1..]);
    }
  }

  /** The batches of a run, one after the other as they land. */
  function Landings(s: State, steps: seq<Step>): seq<Line>
    decreases |steps|
  {
    if |steps| == 0 then []
    else (if Valid(s, steps[0]) then s.held[steps[0].batch] else []) + Landings(Apply(s, steps[0]), steps[1..])
  }

  lemma FreshSettled()
    ensures Settled(FRESH)
  {
  }

  /** On a disk without failures what is written is every batch in the order in which they land, restarts or not, and no
      accepted line is lost. */
  lemma FairRunWritesAll(steps: seq<Step>)
    requires forall i :: 0 <= i < |steps| ==> NoFault(steps[i])
    ensures var s := Run(FRESH, steps); s.past.written == Landings(FRESH, steps) && s.past.lost == 0
  {
    hide Settled, Run, Landings, NoFault;
    FreshSettled();
    RunSettles(FRESH, steps);
  }

  /** And a batch goes whole into the active file, behind what stands there; when that comes to more than four
      mebibytes, the file becomes the older one and the active one is empty. */
  lemma FairLandRotatesIff(steps: seq<Step>, st: Step)
    requires NoFault(st) && forall i :: 0 <= i < |steps| ==> NoFault(steps[i])
    requires Valid(Run(FRESH, steps), st)
    ensures var s := Run(FRESH, steps);
            var t, batch := Apply(s, st), s.held[st.batch];
            var all := Standing(s.files.current) + batch;
            && t.dropped == s.dropped && t.queue == s.queue && |t.held| == |s.held| - 1
            && if batch != [] && Bytes(all) > 0x40_0000
               then Standing(t.files.older) == all && t.files.current == NO_FILE
               else t.files.older == s.files.older && Standing(t.files.current) == all
  {
    hide Settled, Run, Landings, NoFault, Landed, Standing, Bytes;
    FreshSettled();
    RunSettles(FRESH, steps);
    var s := Run(FRESH, steps);
    var batch := s.held[st.batch];
    SettledReleased(s, st.batch);
    FatesAreFair(st);
    LandSince(Released(s, st.batch), batch, st.fates);
    LandedElse(Released(s, st.batch), batch, st.fates, Good);
    BytesConcat(Standing(s.files.current), batch);
  }

  lemma FatesAreFair(st: Step)
    requires NoFault(st) && st.Land?
    ensures st.last == Good && forall i :: 0 <= i < |st.fates| ==> st.fates[i] == FAIR
  {
  }

  // ---- The write buffer

  /** The buffer holds its lines, less what is in the file already of the first, and at most 65536 bytes. */
  predicate Filled(of: Handle) {
    && of.n + of.lead == Bytes(of.buffer) && of.n <= 65536
    && if of.buffer == [] then of.lead == 0 else of.lead < of.buffer[0].bytes
  }

  lemma {:induction false} FirstFits(ls: seq<Line>)
    requires |ls| > 0
    ensures ls[0].bytes <= Bytes(ls)
  {
    if |ls| > 1 {
      FirstFits(ls[..|ls| - 1]);
    }
  }

  /** A flush that a line forces fills the buffer first, so that it writes 65536 bytes: the line stays behind with what
      did not fit, unless that alone fills the buffer again. */
  lemma FlushesAreFull(s: State, l: Line, f: Fate)
    requires Filled(s.of)
    ensures var t := WriteOne(s, l, f).0;
            && Filled(t.of)
            && (s.of.open && !s.of.broken && 0 < s.of.n && s.of.n + l.bytes > 65536 && f.first.Good? ==>
                  && (t.of.buffer == [l] <==> s.of.n + l.bytes <= 2 * 65536)
                  && (t.of.buffer == [l] ==> s.of.n + t.of.lead == 65536)
                  && (t.of.buffer != [l] ==> t.of.buffer == []))
  {
    hide Sink, Torn, FileBytes, Bytes;
    NoBytes();
    BytesOne(l);
    if s.of.buffer != [] {
      FirstFits(s.of.buffer);
    }
    BytesConcat(s.of.buffer, [l]);
    BytesConcat([], [l]);
  }

  lemma {:induction false} AllFill(s: State, batch: seq<Line>, fates: seq<Fate>)
    requires Filled(s.of) && |fates| == |batch|
    ensures Filled(WriteAll(s, batch, fates).0.of)
  {
    hide Filled, WriteOne;
    if |batch| > 0 {
      var k := |batch| - 1;
      AllFill(s, batch[..k], fates[..k]);
      FlushesAreFull(WriteAll(s, batch[..k], fates[..k]).0, batch[k], fates[k]);
    }
  }

  lemma StepFills(s: State, st: Step)
    requires Filled(s.of)
    ensures Filled(Apply(s, st).of)
  {
    hide WriteAll, Sink, Torn, Bytes, Readable;
    NoBytes();
    if Valid(s, st) {
      AllFill(Released(s, st.batch), s.held[st.batch], st.fates);
    }
  }

  lemma {:induction false} RunFills(s: State, steps: seq<Step>)
    requires Filled(s.of)
    ensures Filled(Run(s, steps).of)
    decreases |steps|
  {
    hide Filled, Apply;
    if |steps| > 0 {
      StepFills(s, steps[0]);
      RunFills(Apply(s, steps[0]), steps[1..]);
    }
  }

  /** So in the middle of a batch, after any run and on any disk. */
  lemma FilledThroughout(steps: seq<Step>, batch: seq<Line>, fates: seq<Fate>)
    requires |fates| == |batch|
    ensures Filled(WriteAll(Run(FRESH, steps), batch, fates).0.of)
  {
    hide WriteAll, Run, Bytes;
    NoBytes();
    RunFills(FRESH, steps);
    AllFill(Run(FRESH, steps), batch, fates);
  }
}
