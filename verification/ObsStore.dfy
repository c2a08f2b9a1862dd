/** The per-project log store: queue, buffered writes, rotation and sequence numbers (server/internal/obs/store.go), for
    one project's pair of files on a disk that may fail at any write. The class does to its fields what the functions
    do to a value; what holds over every run, and what paged reads deliver, is in ObsRuns. */
module ObsStore {
  import opened ObsRead
  import opened Wrappers

  const MAX_FILE := 0x40_0000
  const MAX_LINE := 0x10_0000
  const CHAN_CAP := 1024
  const BUFFER := 65536

  type Size = n: nat | n > 0 witness 1

  /** One line: its entry and its length in bytes, the newline included. */
  datatype Line = Line(entry: Entry, bytes: Size)

  function Bytes(ls: seq<Line>): nat { if |ls| == 0 then 0 else Bytes(ls[..|ls| - 1]) + ls[|ls| - 1].bytes }

  function MaxSeq(ls: seq<Line>): nat {
    if |ls| == 0 then 0
    else
      var m, s := MaxSeq(ls[..|ls| - 1]), ls[|ls| - 1].entry.seqNo;
      if s > m then s else m
  }

  /** What becomes of one write to the disk: all of it lands, or whole lines and then half a line do. */
  datatype Disk = Good | Fails(lines: nat, half: nat)

  /** What the disk does while one line is written: whether a closed file opens, and the outcomes of the buffer flush
      and of the direct write that the line may force. */
  datatype Fate = Fate(opens: bool, first: Disk, second: Disk)

  /** What stands between two newlines of a file: a line, or the rest of a cut line run into the next one. */
  datatype Piece = Whole(line: Line) | Scrap(bytes: Size)

  /** What follows the last newline: nothing, a part of a line, or a line short of its newline only. */
  datatype Tail = NoTail | Part(bytes: Size) | Cut(line: Line)

  datatype LogFile = LogFile(pieces: seq<Piece>, tail: Tail)

  /** The .1 file and the active one. */
  datatype Files = Files(older: LogFile, current: LogFile)

  /** The open file: the store's own byte count, and the write buffer with `n` bytes in it, of whose first line `lead`
      bytes are in the file already; `broken` is the buffer's lasting error. */
  datatype Handle = Handle(open: bool, broken: bool, size: nat, buffer: seq<Line>, n: nat, lead: nat)

  /** Not state: `written` is every line that reached a file with its newline and behind another's, in order; `put`
      counts the lines handed in by this process, and `base` the lines written before it; `lost` counts lines the
      store accepted that were not so written, and `lostBase` those before this process. */
  datatype History = History(written: seq<Line>, put: nat, base: nat, lost: nat, lostBase: nat)

  /** `taken` holds sequence numbers assigned but not yet queued, `held` the batches that flushers have drained and
      not yet written. */
  datatype State = State(
    counter: nat,
    taken: set<nat>,
    queue: seq<Line>,
    held: seq<seq<Line>>,
    files: Files,
    of: Handle,
    dropped: int,
    past: History)

  const NO_FILE := LogFile([], NoTail)
  const CLOSED := Handle(false, false, 0, [], 0, 0)
  const FRESH := State(0, {}, [], [], Files(NO_FILE, NO_FILE), CLOSED, 0, History([], 0, 0, 0, 0))

  // ---- What a file holds and what a scan of it finds

  function PieceBytes(p: Piece): nat { if p.Whole? then p.line.bytes else p.bytes }

  function Sum(ps: seq<Piece>): nat { if |ps| == 0 then 0 else Sum(ps[..|ps| - 1]) + PieceBytes(ps[|ps| - 1]) }

  function TailBytes(t: Tail): nat {
    match t
    case NoTail => 0
    case Part(bytes) => bytes
    case Cut(l) => l.bytes - 1
  }

  function FileBytes(f: LogFile): nat { Sum(f.pieces) + TailBytes(f.tail) }

  function Lines(ps: seq<Piece>): seq<Line> {
    if |ps| == 0 then []
    else
      var p := ps[|ps| - 1];
      Lines(ps[..|ps| - 1]) + (if p.Whole? then [p.line] else [])
  }

  /** The lines that stand in a file with their newline. */
  function Standing(f: LogFile): seq<Line> { Lines(f.pieces) }

  /** The scanner's buffer takes every piece. */
  predicate Clear(ps: seq<Piece>) { forall i :: 0 <= i < |ps| ==> PieceBytes(ps[i]) <= MAX_LINE }

  /** A scan ends at the first piece its buffer does not take. */
  function Found(ps: seq<Piece>): seq<Line> {
    if |ps| == 0 then []
    else
      var p := ps[|ps| - 1];
      Found(ps[..|ps| - 1]) + (if Clear(ps) && p.Whole? then [p.line] else [])
  }

  /** A line short of its newline is found while it ends the file. */
  function FoundTail(f: LogFile): seq<Line> {
    if Clear(f.pieces) && f.tail.Cut? && f.tail.line.bytes <= MAX_LINE then [f.tail.line] else []
  }

  function Scanned(f: LogFile): seq<Line> { Found(f.pieces) + FoundTail(f) }

  /** What Read and the resuming counter find in the two files. */
  function Readable(s: State): seq<Line> { Scanned(s.files.older) + Scanned(s.files.current) }

  lemma {:induction false} FoundStops(ps: seq<Piece>, i: nat)
    requires i < |ps| && PieceBytes(ps[i]) > MAX_LINE
    ensures Found(ps) == Found(ps[..i]) && !Clear(ps)
    decreases |ps|
  {
    if i < |ps| - 1 {
      FoundStops(ps[..|ps| - 1], i);
      assert ps[..|ps| - 1][..i] == ps[..i];
    }
  }

  // ---- Writing a batch

  function Wholes(ls: seq<Line>): (ps: seq<Piece>)
    ensures |ps| == |ls| && forall i :: 0 <= i < |ls| ==> ps[i] == Whole(ls[i])
  {
    seq(|ls|, i requires 0 <= i < |ls| => Whole(ls[i]))
  }

  /** Whole lines reach the active file. Behind a tail the first of them runs on from it, which spoils both. */
  function Sink(f: LogFile, past: History, ls: seq<Line>): (LogFile, History) {
    if |ls| == 0 then (f, past)
    else if f.tail.NoTail? then (f.(pieces := f.pieces + Wholes(ls)), past.(written := past.written + ls))
    else
      (LogFile(f.pieces + [Scrap(TailBytes(f.tail) + ls[0].bytes)] + Wholes(ls[1..]), NoTail),
       past.(written := past.written + ls[1..], lost := past.lost + 1))
  }

  function Sunk(s: State, ls: seq<Line>): State {
    var (f, past) := Sink(s.files.current, s.past, ls);
    s.(files := s.files.(current := f), past := past)
  }

  /** The end of the file after a write stopped `half` bytes into line `l`. */
  function Torn(tail: Tail, half: nat, l: Line): Tail {
    var h := Min(half, l.bytes - 1);
    if h == 0 then tail else if tail.NoTail? && h == l.bytes - 1 then Cut(l) else Part(TailBytes(tail) + h)
  }

  function Broken(s: State): State { s.(of := s.of.(broken := true)) }

  function Halved(s: State, half: nat, l: Line): State {
    var f := s.files.current;
    Broken(s).(files := s.files.(current := f.(tail := Torn(f.tail, half, l))))
  }

  function Min(a: nat, b: nat): nat { if a < b then a else b }

  function Emptied(s: State): State { s.(of := s.of.(buffer := [], n := 0, lead := 0)) }

  /** Flushing the buffer, which holds `ahead` bytes of `next` behind its lines. A failure leaves the rest of its lines
      behind, and the error stays. */
  function Spilled(s: State, d: Disk, next: Option<Line>, ahead: nat): State {
    match d
    case Good => Emptied(Sunk(s, s.of.buffer))
    case Fails(lines, half) =>
      var m := Min(lines, |s.of.buffer|);
      var t := Sunk(s, s.of.buffer[..m]);
      var u := Emptied(t.(past := t.past.(lost := t.past.lost + (|s.of.buffer| - m))));
      if m < |s.of.buffer| then Halved(u, half + (if m == 0 then s.of.lead else 0), s.of.buffer[m])
      else if next.Some? then Halved(u, Min(half, ahead), next.value)
      else Broken(u)
  }

  function Sized(s: State, l: Line): State { s.(of := s.of.(size := s.of.size + l.bytes)) }

  function Counted(s: State): State { s.(dropped := s.dropped + 1) }

  /** A line too long for an empty buffer goes to the file at once; `ahead` bytes of it are there already. */
  function Direct(s: State, l: Line, d: Disk, ahead: nat): (State, bool) {
    match d
    case Good => (Sized(Sunk(s, [l]), l), true)
    case Fails(_, half) => (Counted(Halved(s, ahead + half, l)), false)
  }

  /** How much of a line fits behind what is buffered. */
  function Ahead(s: State): nat { if s.of.n <= BUFFER then BUFFER - s.of.n else 0 }

  /** bufio.Writer.Write on a writer without an error. */
  function Buffered(s: State, l: Line, f: Fate): (State, bool) {
    if s.of.n + l.bytes <= BUFFER then
      (Sized(s.(of := s.of.(buffer := s.of.buffer + [l], n := s.of.n + l.bytes)), l), true)
    else if s.of.n == 0 then Direct(s, l, f.first, 0)
    else
      var ahead := Ahead(s);
      var t := Spilled(s, f.first, Some(l), ahead);
      if f.first.Fails? then (Counted(t), false)
      else if ahead < l.bytes <= ahead + BUFFER then
        (Sized(t.(of := t.of.(buffer := [l], n := l.bytes - ahead, lead := ahead)), l), true)
      else Direct(t, l, f.second, ahead)
  }

  /** openLocked on a closed file: the size resumes from the disk. */
  function Opened(s: State): State { s.(of := CLOSED.(open := true, size := FileBytes(s.files.current))) }

  /** One round of flush's loop: the state, and whether the line was taken. */
  function WriteOne(s: State, l: Line, f: Fate): (State, bool) {
    if !s.of.open && !f.opens then (Counted(s), false)
    else
      var o := if s.of.open then s else Opened(s);
      if o.of.broken then (Counted(o), false) else Buffered(o, l, f)
  }

  function WriteAll(s: State, batch: seq<Line>, fates: seq<Fate>): (State, bool)
    requires |fates| == |batch|
  {
    if |batch| == 0 then (s, false)
    else
      var k := |batch| - 1;
      var (t, seen) := WriteAll(s, batch[..k], fates[..k]);
      var (u, taken) := WriteOne(t, batch[k], fates[k]);
      (u, seen || taken)
  }

  /** rotateLocked. */
  function Rotated(s: State): State {
    s.(files := Files(s.files.current, NO_FILE), of := CLOSED)
  }

  /** The end of flush: the buffer is flushed, its error ignored, and the file rotated past the cap. */
  function Finished(s: State, seen: bool, last: Disk): State {
    if !seen then s
    else
      var t := if s.of.broken then s else Spilled(s, last, None, 0);
      if t.of.size > MAX_FILE then Rotated(t) else t
  }

  function Landed(s: State, batch: seq<Line>, fates: seq<Fate>, last: Disk): State
    requires |fates| == |batch|
  {
    var (t, seen) := WriteAll(s, batch, fates);
    Finished(t, seen, last)
  }

  /** A new process: handle, buffer, queue and batches are gone, and the counter resumes from the files. */
  function Restarted(s: State): State {
    State(MaxSeq(Readable(s)), {}, [], [], s.files, CLOSED, 0,
          s.past.(put := 0, base := |s.past.written|, lostBase := s.past.lost))
  }

  /** A line is queued under a number its caller holds; a full queue drops it. */
  function Queued(s: State, l: Line): State {
    var t := s.(taken := s.taken - {l.entry.seqNo}, past := s.past.(put := s.past.put + 1));
    if |s.queue| < CHAN_CAP then t.(queue := s.queue + [l]) else Counted(t)
  }

  function Drained(s: State): State { if |s.queue| == 0 then s else s.(queue := [], held := s.held + [s.queue]) }

  function Released(s: State, i: nat): State
    requires i < |s.held|
  {
    s.(held := s.held[..i] + s.held[i + 1..])
  }

  class Store {
    var counter: nat
    var queue: seq<Line>
    var files: Files
    var of: Handle
    var dropped: int
    ghost var taken: set<nat>
    ghost var held: seq<seq<Line>>
    ghost var past: History

    ghost function View(): State
      reads this
    {
      State(counter, taken, queue, held, files, of, dropped, past)
    }

    constructor ()
      ensures View() == FRESH
    {
      counter, queue, files, of, dropped := 0, [], Files(NO_FILE, NO_FILE), CLOSED, 0;
      taken, held, past := {}, [], History([], 0, 0, 0, 0);
    }

    /** append, first half: the next sequence number. */
    method NextSeq() returns (k: nat)
      modifies this
      ensures k == old(counter) + 1
      ensures View() == old(View()).(counter := k, taken := old(taken) + {k})
    {
      counter := counter + 1;
      k := counter;
      taken := taken + {k};
    }

    /** append, second half: a send that never blocks; a full queue drops and counts. */
    method Enqueue(l: Line)
      modifies this
      ensures View() == Queued(old(View()), l)
    {
      taken, past := taken - {l.entry.seqNo}, past.(put := past.put + 1);
      if |queue| < CHAN_CAP {
        queue := queue + [l];
      } else {
        dropped := dropped + 1;
      }
    }

    /** flush, before it takes the write lock. */
    method Drain() returns (batch: seq<Line>)
      modifies this
      ensures batch == old(queue) && View() == Drained(old(View()))
    {
      batch := queue;
      if |batch| > 0 {
        queue, held := [], held + [batch];
      }
    }

    /** What the disk holds after whole lines were written to the active file. */
    method SinkLines(ls: seq<Line>)
      modifies this
      ensures View() == Sunk(old(View()), ls)
    {
      if |ls| == 0 {
        return;
      }
      var f := files.current;
      if f.tail.NoTail? {
        files := files.(current := f.(pieces := f.pieces + Wholes(ls)));
        past := past.(written := past.written + ls);
      } else {
        var scrap := Scrap(TailBytes(f.tail) + ls[0].bytes);
        files := files.(current := LogFile(f.pieces + [scrap] + Wholes(ls[1..]), NoTail));
        past := past.(written := past.written + ls[1..], lost := past.lost + 1);
      }
    }

    /** And after a write that stopped inside a line. */
    method HalfLine(half: nat, l: Line)
      modifies this
      ensures View() == Halved(old(View()), half, l)
    {
      of := of.(broken := true);
      files := files.(current := files.current.(tail := Torn(files.current.tail, half, l)));
    }

    method FlushBuffer(d: Disk, next: Option<Line>, ahead: nat) returns (ok: bool)
      modifies this
      ensures View() == Spilled(old(View()), d, next, ahead) && ok == d.Good?
    {
      hide Sunk, Halved;
      var lines, first := of.buffer, of.lead;
      if d.Good? {
        SinkLines(lines);
        of := of.(buffer := [], n := 0, lead := 0);
        return true;
      }
      var m := if d.lines < |lines| then d.lines else |lines|;
      SinkLines(lines[..m]);
      past := past.(lost := past.lost + (|lines| - m));
      of := of.(buffer := [], n := 0, lead := 0);
      if m < |lines| {
        HalfLine(d.half + if m == 0 then first else 0, lines[m]);
      } else if next.Some? {
        HalfLine(Min(d.half, ahead), next.value);
      } else {
        of := of.(broken := true);
      }
      return false;
    }

    method WriteDirect(l: Line, d: Disk, ahead: nat) returns (ok: bool)
      modifies this
      ensures (View(), ok) == Direct(old(View()), l, d, ahead)
    {
      hide Sunk, Halved;
      if d.Good? {
        SinkLines([l]);
        of := of.(size := of.size + l.bytes);
        return true;
      }
      HalfLine(ahead + d.half, l);
      dropped := dropped + 1;
      return false;
    }

    /** bufio.Writer.Write and the count of the bytes taken. */
    method WriteBuffered(l: Line, f: Fate) returns (ok: bool)
      modifies this
      ensures (View(), ok) == Buffered(old(View()), l, f)
    {
      hide Spilled, Direct;
      if of.n + l.bytes <= BUFFER {
        of := of.(buffer := of.buffer + [l], n := of.n + l.bytes, size := of.size + l.bytes);
        return true;
      }
      if of.n == 0 {
        ok := WriteDirect(l, f.first, 0);
        return;
      }
      var ahead := if of.n <= BUFFER then BUFFER - of.n else 0;
      ok := FlushBuffer(f.first, Some(l), ahead);
      if !ok {
        dropped := dropped + 1;
        return;
      }
      if ahead < l.bytes && l.bytes <= ahead + BUFFER {
        of := of.(buffer := [l], n := l.bytes - ahead, lead := ahead, size := of.size + l.bytes);
        return true;
      }
      ok := WriteDirect(l, f.second, ahead);
    }

    /** One round of the loop: open if need be, write through the buffer, count an error. */
    method WriteLine(l: Line, f: Fate) returns (ok: bool)
      modifies this
      ensures (View(), ok) == WriteOne(old(View()), l, f)
    {
      hide Buffered, FileBytes;
      if !of.open && !f.opens {
        dropped := dropped + 1;
        return false;
      }
      if !of.open {
        of := CLOSED.(open := true, size := FileBytes(files.current));
      }
      if of.broken {
        dropped := dropped + 1;
        return false;
      }
      ok := WriteBuffered(l, f);
    }

    /** flush under the write lock, on a batch drained before; `i` is the batch's place among those held. */
    method WriteBatch(batch: seq<Line>, fates: seq<Fate>, last: Disk, ghost i: nat)
      requires i < |held| && held[i] == batch && |fates| == |batch|
      modifies this
      ensures View() == Landed(Released(old(View()), i), batch, fates, last)
    {
      hide WriteOne, Spilled;
      held := held[..i] + held[i + 1..];
      ghost var begun := View();
      var seen := false;
      for k := 0 to |batch|
        invariant (View(), seen) == WriteAll(begun, batch[..k], fates[..k])
      {
        assert batch[..k + 1][..k] == batch[..k] && fates[..k + 1][..k] == fates[..k];
        var ok := WriteLine(batch[k], fates[k]);
        seen := seen || ok;
      }
      assert batch[..|batch|] == batch && fates[..|fates|] == fates;
      if !seen {
        return;
      }
      if !of.broken {
        var _ := FlushBuffer(last, None, 0);
      }
      if of.size > MAX_FILE {
        files := Files(files.current, NO_FILE);
        of := CLOSED;
      }
    }

    /** One scan: line by line, until one does not fit the scanner's buffer. */
    method ScanFile(f: LogFile) returns (ls: seq<Line>)
      ensures ls == Scanned(f)
    {
      ls := [];
      for i := 0 to |f.pieces|
        invariant ls == Found(f.pieces[..i]) && Clear(f.pieces[..i])
      {
        var p := f.pieces[i];
        assert f.pieces[..i + 1][..i] == f.pieces[..i];
        if PieceBytes(p) > MAX_LINE {
          FoundStops(f.pieces, i);
          return;
        }
        assert forall j :: 0 <= j < i ==> f.pieces[..i][j] == f.pieces[j];
        if p.Whole? {
          ls := ls + [p.line];
        }
      }
      assert f.pieces[..|f.pieces|] == f.pieces;
      if f.tail.Cut? && f.tail.line.bytes <= MAX_LINE {
        ls := ls + [f.tail.line];
      }
    }

    /** A new process: what was in memory is gone, and counter resumes from a scan of both files. */
    method Restart()
      modifies this
      ensures View() == Restarted(old(View()))
    {
      var older := ScanFile(files.older);
      var current := ScanFile(files.current);
      var all, max := older + current, 0;
      for i := 0 to |all|
        invariant max == MaxSeq(all[..i])
        invariant View() == old(View())
      {
        assert all[..i + 1][..i] == all[..i];
        if all[i].entry.seqNo > max {
          max := all[i].entry.seqNo;
        }
      }
      assert all[..|all|] == all;
      counter, queue, of, dropped := max, [], CLOSED, 0;
      taken, held, past := {}, [], past.(put := 0, base := |past.written|, lostBase := past.lost);
    }

    /** Read flushes first, then scans the older file and the active one under the write lock. */
    method Read(after: int, before: int, limit: int, keep: Entry -> bool, fates: seq<Fate>, last: Disk)
      returns (page: seq<Entry>, firstSeq: nat, lastSeq: nat)
      requires |fates| == |queue|
      modifies this
      ensures View() == if |old(queue)| == 0 then old(View())
                        else Landed(Released(Drained(old(View())), |old(held)|), old(queue), fates, last)
      ensures page == Page(Ordered(Entries(Readable(View())), keep), after, before, limit)
      ensures |page| == 0 ==> firstSeq == lastSeq == 0
      ensures |page| > 0 ==> firstSeq == page[0].seqNo && lastSeq == page[|page| - 1].seqNo
    {
      hide Landed, Ordered, Page, Entries, Scanned;
      var batch := Drain();
      if |batch| > 0 {
        WriteBatch(batch, fates, last, |held| - 1);
      }
      var older := ScanFile(files.older);
      var current := ScanFile(files.current);
      page, firstSeq, lastSeq := ObsRead.Read(Entries(older + current), after, before, limit, keep);
    }
  }

  function Entries(ls: seq<Line>): (es: seq<Entry>)
    ensures |es| == |ls| && forall i :: 0 <= i < |ls| ==> es[i] == ls[i].entry
  {
    seq(|ls|, i requires 0 <= i < |ls| => ls[i].entry)
  }
}
