/** The encrypted frame codec (server/internal/sync/crypto.go) and the client's chunkWriter
    (server/cmd/pcoder-sync/main.go), over an ideal authenticated cipher. */
module SyncFrames {
  import opened Text
  import opened Wrappers

  type Byte = b: int | 0 <= b < 256
  type Bytes = seq<Byte>

  const FRAME_SIZE := 65536
  const OVERHEAD := 16
  const MAX_FRAME := FRAME_SIZE + OVERHEAD
  const FRAME_HEAD := 4
  const SEQ_LIMIT := 0x1_0000_0000_0000_0000

  // ---- Big-endian numbers

  function Pow256(width: nat): nat { if width == 0 then 1 else 256 * Pow256(width - 1) }

  function BigEndian(n: nat, width: nat): (r: Bytes)
    ensures |r| == width
  {
    if width == 0 then [] else BigEndian(n / 256, width - 1) + [n % 256]
  }

  function Number(b: Bytes): nat { if |b| == 0 then 0 else 256 * Number(b[..|b| - 1]) + b[|b| - 1] }

  lemma {:induction false} NumberOfBigEndian(n: nat, width: nat)
    requires n < Pow256(width)
    ensures Number(BigEndian(n, width)) == n
  {
    if width > 0 {
      NumberOfBigEndian(n / 256, width - 1);
      assert BigEndian(n, width)[..width - 1] == BigEndian(n / 256, width - 1);
    }
  }

  lemma TwoMore(n: nat, width: nat)
    ensures BigEndian(n, width + 2) == BigEndian(n / 0x1_0000, width) + [n / 0x100 % 256, n % 256]
  {
    assert BigEndian(n, width + 2) == BigEndian(n / 0x100, width + 1) + [n % 256];
    assert n / 0x100 / 256 == n / 0x1_0000;
  }

  /** A frame's length stands on the wire as four bytes, the most significant first. */
  lemma LengthOnWire(n: nat)
    ensures BigEndian(n, FRAME_HEAD) == [n / 0x100_0000 % 256, n / 0x1_0000 % 256, n / 0x100 % 256, n % 256]
  {
    TwoMore(n, 2);
    TwoMore(n / 0x1_0000, 0);
    assert n / 0x1_0000 / 0x100 == n / 0x100_0000;
  }

  // ---- What is bound into a frame

  datatype AAD = AAD(session: string, project: string, branch: string, commit: string, direction: string)

  const NUL: string := "\0"

  function AadBytes(a: AAD, k: nat): string {
    a.session + NUL + (a.project + NUL + (a.branch + NUL + (a.commit + NUL + (a.direction + NUL + Decimal(k)))))
  }

  predicate NulFree(a: AAD) {
    '\0' !in a.session && '\0' !in a.project && '\0' !in a.branch && '\0' !in a.commit && '\0' !in a.direction
  }

  lemma FirstFieldUnique(a: string, r: string, b: string, s: string)
    requires '\0' !in a && '\0' !in b && a + NUL + r == b + NUL + s
    ensures a == b && r == s
  {
    var x := a + NUL + r;
    assert x[|a|] == '\0' && x[|b|] == '\0';
    assert forall i :: 0 <= i < |a| ==> x[i] == a[i] && a[i] in a;
    assert forall i :: 0 <= i < |b| ==> x[i] == b[i] && b[i] in b;
    assert |a| == |b|;
    assert a == x[..|a|] && b == x[..|b|];
    assert r == x[|a| + 1..] && s == x[|b| + 1..];
  }

  /** Among NUL-free identities, the associated data tells apart every session, project, branch, commit,
      direction and sequence number. */
  lemma AadInjective(a: AAD, b: AAD, i: nat, j: nat)
    requires NulFree(a) && NulFree(b) && AadBytes(a, i) == AadBytes(b, j)
    ensures a == b && i == j
  {
    var a5, b5 := a.direction + NUL + Decimal(i), b.direction + NUL + Decimal(j);
    var a4, b4 := a.commit + NUL + a5, b.commit + NUL + b5;
    var a3, b3 := a.branch + NUL + a4, b.branch + NUL + b4;
    var a2, b2 := a.project + NUL + a3, b.project + NUL + b3;
    FirstFieldUnique(a.session, a2, b.session, b2);
    FirstFieldUnique(a.project, a3, b.project, b3);
    FirstFieldUnique(a.branch, a4, b.branch, b4);
    FirstFieldUnique(a.commit, a5, b.commit, b5);
    FirstFieldUnique(a.direction, Decimal(i), b.direction, Decimal(j));
    DecimalRoundTrip(i);
    DecimalRoundTrip(j);
  }

  /** The pieces between the NULs. */
  function Fields(s: string): (r: seq<string>)
    ensures |r| > 0
  {
    if |s| == 0 then [""]
    else
      var rest := Fields(s[1..]);
      if s[0] == '\0' then [""] + rest else [[s[0]] + rest[0]] + rest[1..]
  }

  lemma {:induction false} FieldsAfter(f: string, s: string)
    requires '\0' !in f
    ensures Fields(f + NUL + s) == [f] + Fields(s) && Fields(f) == [f]
    decreases |f|
  {
    if |f| == 0 {
      assert (f + NUL + s)[1..] == s;
    } else {
      FieldsAfter(f[1..], s);
      assert (f + NUL + s)[1..] == f[1..] + NUL + s;
      assert [f[0]] + f[1..] == f;
    }
  }

  /** Read back at the NULs, the associated data names the five parts of the identity and the number, in that
      order. */
  lemma AadSays(a: AAD, k: nat)
    requires NulFree(a)
    ensures Fields(AadBytes(a, k)) == [a.session, a.project, a.branch, a.commit, a.direction, Decimal(k)]
  {
    var a5 := a.direction + NUL + Decimal(k);
    var a4 := a.commit + NUL + a5;
    var a3 := a.branch + NUL + a4;
    var a2 := a.project + NUL + a3;
    assert AadBytes(a, k) == a.session + NUL + a2;
    hide AadBytes, Fields, Decimal;
    FieldsAfter(a.session, a2);
    FieldsAfter(a.project, a3);
    FieldsAfter(a.branch, a4);
    FieldsAfter(a.commit, a5);
    FieldsAfter(a.direction, Decimal(k));
    FieldsAfter(Decimal(k), "");
  }

  /** A NUL inside a field lets two different identities share their associated data. */
  lemma NulConfuses(x: string, y: string, z: string, branch: string, commit: string, direction: string, k: nat)
    ensures AadBytes(AAD(x + NUL + y, z, branch, commit, direction), k)
              == AadBytes(AAD(x, y + NUL + z, branch, commit, direction), k)
  {
    var rest := branch + NUL + (commit + NUL + (direction + NUL + Decimal(k)));
    assert x + NUL + y + NUL + (z + NUL + rest) == x + NUL + (y + NUL + z + NUL + rest);
  }

  function Nonce(k: nat): Bytes { [0, 0, 0, 0] + BigEndian(k, 8) }

  /** No nonce repeats among the frames of one key, below the width of the counter. */
  lemma NonceInjective(i: nat, j: nat)
    requires i < SEQ_LIMIT && j < SEQ_LIMIT && Nonce(i) == Nonce(j)
    ensures i == j
  {
    assert Pow256(8) == SEQ_LIMIT by {
      assert Pow256(4) == 0x1_0000_0000;
      assert Pow256(8) == 256 * (256 * (256 * (256 * Pow256(4))));
    }
    assert Nonce(i)[4..] == BigEndian(i, 8) && Nonce(j)[4..] == BigEndian(j, 8);
    NumberOfBigEndian(i, 8);
    NumberOfBigEndian(j, 8);
  }

  /** A nonce is four zero bytes and the counter, the most significant byte first. */
  lemma NonceOnWire(k: nat)
    requires k < SEQ_LIMIT
    ensures |Nonce(k)| == 12 && Nonce(k)[..4] == [0, 0, 0, 0]
    ensures Nonce(k)[4..8] == BigEndian(k / 0x1_0000_0000, FRAME_HEAD) && Nonce(k)[8..] == BigEndian(k, FRAME_HEAD)
  {
    HighHalf(k);
  }

  lemma HighHalf(k: nat)
    ensures BigEndian(k, 8) == BigEndian(k / 0x1_0000_0000, 4) + BigEndian(k, 4)
  {
    hide BigEndian;
    TwoMore(k, 6);
    TwoMore(k / 0x1_0000, 4);
    TwoMore(k, 2);
    TwoMore(k / 0x1_0000, 2);
    FourAreTwo(k);
    assert k / 0x1_0000 / 0x1_0000 == k / 0x1_0000_0000;
  }

  lemma FourAreTwo(k: nat)
    ensures BigEndian(k, 4) == [k / 0x1_0000 / 0x100 % 256, k / 0x1_0000 % 256] + [k / 0x100 % 256, k % 256]
  {
    TwoMore(k, 2);
    TwoMore(k / 0x1_0000, 0);
  }

  // ---- The ideal cipher under one key

  datatype Aead = Aead(seal: (Bytes, Bytes, string) -> Bytes, open: (Bytes, Bytes, string) -> Option<Bytes>)

  /** The messages, sealed in order from counter `k`, open to themselves; a tag adds a fixed length. */
  ghost predicate Opens(c: Aead, aad: AAD, k: nat, msgs: seq<Bytes>)
    decreases |msgs|
  {
    |msgs| > 0 ==>
      var ct := c.seal(Nonce(k), msgs[0], AadBytes(aad, k));
      && |ct| == |msgs[0]| + OVERHEAD
      && c.open(Nonce(k), ct, AadBytes(aad, k)) == Some(msgs[0])
      && Opens(c, aad, Next(k), msgs[1..])
  }

  /** Nothing opens but what some key holder sealed: this writer's messages in their own positions, or
      messages of another sync, whose identity differs. */
  ghost predicate Unforgeable(c: Aead, aad: AAD, msgs: seq<Bytes>) {
    forall n, ct, d, p :: c.open(n, ct, d) == Some(p) ==> Own(aad, msgs, d, p) || Foreign(aad, d)
  }

  ghost predicate Own(aad: AAD, msgs: seq<Bytes>, d: string, p: Bytes) {
    exists i :: 0 <= i < |msgs| && d == AadBytes(aad, i) && p == msgs[i]
  }

  ghost predicate Foreign(aad: AAD, d: string) {
    exists b, i :: b != aad && NulFree(b) && d == AadBytes(b, i)
  }

  // ---- Writing

  function Frame(c: Aead, aad: AAD, k: nat, p: Bytes): Bytes {
    var ct := c.seal(Nonce(k), p, AadBytes(aad, k));
    BigEndian(|ct|, FRAME_HEAD) + ct
  }

  function Stream(c: Aead, aad: AAD, k: nat, msgs: seq<Bytes>): Bytes
    decreases |msgs|
  {
    if |msgs| == 0 then [] else Frame(c, aad, k, msgs[0]) + Stream(c, aad, Next(k), msgs[1..])
  }

  /** The 64-bit counter. */
  function Next(k: nat): nat { (k + 1) % SEQ_LIMIT }

  function Concat(msgs: seq<Bytes>): Bytes { if |msgs| == 0 then [] else msgs[0] + Concat(msgs[1..]) }

  /** The frames one write through chunkWriter becomes: full ones, then what is left. */
  function Chunks(p: Bytes): seq<Bytes> {
    if |p| == 0 then [] else if |p| <= FRAME_SIZE then [p] else [p[..FRAME_SIZE]] + Chunks(p[FRAME_SIZE..])
  }

  lemma {:induction false} ChunksFit(p: Bytes)
    ensures Concat(Chunks(p)) == p
    ensures forall i :: 0 <= i < |Chunks(p)| ==> 0 < |Chunks(p)[i]| <= 65536
    ensures forall i :: 0 <= i < |Chunks(p)| - 1 ==> |Chunks(p)[i]| == 65536
    decreases |p|
  {
    if |p| == 0 {
    } else if |p| <= FRAME_SIZE {
      assert [p][1..] == [];
    } else {
      ChunksFit(p[FRAME_SIZE..]);
      assert Chunks(p)[1..] == Chunks(p[FRAME_SIZE..]);
    }
  }

  /** The frames of several writes. */
  function ChunksOf(writes: seq<Bytes>): seq<Bytes> {
    if |writes| == 0 then [] else Chunks(writes[0]) + ChunksOf(writes[1..])
  }

  lemma {:induction false} ChunksOfFit(writes: seq<Bytes>)
    ensures Concat(ChunksOf(writes)) == Concat(writes)
    ensures forall i :: 0 <= i < |ChunksOf(writes)| ==> 0 < |ChunksOf(writes)[i]| <= FRAME_SIZE
  {
    hide Chunks;
    if |writes| > 0 {
      ChunksFit(writes[0]);
      ChunksOfFit(writes[1..]);
      ConcatAppend(Chunks(writes[0]), ChunksOf(writes[1..]));
    }
  }

  lemma {:induction false} ConcatAppend(a: seq<Bytes>, b: seq<Bytes>)
    ensures Concat(a + b) == Concat(a) + Concat(b)
  {
    if |a| == 0 {
      assert a + b == b;
    } else {
      assert (a + b)[1..] == a[1..] + b;
      ConcatAppend(a[1..], b);
    }
  }

  lemma {:induction false} StreamAppend(c: Aead, aad: AAD, k: nat, msgs: seq<Bytes>, p: Bytes)
    ensures Stream(c, aad, k, msgs + [p]) == Stream(c, aad, k, msgs) + Frame(c, aad, AdvanceFrom(k, |msgs|), p)
    decreases |msgs|
  {
    if |msgs| == 0 {
      assert [p][1..] == [];
    } else {
      assert (msgs + [p])[1..] == msgs[1..] + [p];
      StreamAppend(c, aad, Next(k), msgs[1..], p);
    }
  }

  function AdvanceFrom(k: nat, n: nat): nat
    decreases n
  {
    if n == 0 then k else AdvanceFrom(Next(k), n - 1)
  }

  lemma {:induction false} AdvanceFromStep(k: nat, n: nat)
    ensures AdvanceFrom(k, n + 1) == Next(AdvanceFrom(k, n))
    decreases n
  {
    if n > 0 {
      AdvanceFromStep(Next(k), n - 1);
    }
  }

  lemma AppendFrame(c: Aead, aad: AAD, written: seq<Bytes>, p: Bytes, out: Bytes, ct: Bytes)
    requires out == Stream(c, aad, 0, written)
    requires ct == c.seal(Nonce(AdvanceFrom(0, |written|)), p, AadBytes(aad, AdvanceFrom(0, |written|)))
    ensures out + BigEndian(|ct|, FRAME_HEAD) + ct == Stream(c, aad, 0, written + [p])
    ensures AdvanceFrom(0, |written| + 1) == Next(AdvanceFrom(0, |written|))
  {
    hide AadBytes, Nonce, BigEndian, Stream, AdvanceFrom;
    StreamAppend(c, aad, 0, written, p);
    AdvanceFromStep(0, |written|);
    assert out + BigEndian(|ct|, FRAME_HEAD) + ct == out + (BigEndian(|ct|, FRAME_HEAD) + ct);
  }

  lemma ChunksStep(p: Bytes, n: nat)
    requires |p| > 0 && n == if |p| > FRAME_SIZE then FRAME_SIZE else |p|
    ensures Chunks(p) == [p[..n]] + Chunks(p[n..])
  {
    if n == |p| {
      assert p[..n] == p && p[n..] == [];
    }
  }

  lemma FrameIsCut(c: Aead, aad: AAD, written: seq<Bytes>, p: Bytes, out: Bytes, piece: Bytes, frame: Bytes)
    requires out == Stream(c, aad, 0, written) && frame == Frame(c, aad, AdvanceFrom(0, |written|), p) && piece <= frame
    ensures out <= out + piece <= Stream(c, aad, 0, written + [p])
  {
    hide Stream, Frame, AdvanceFrom;
    StreamAppend(c, aad, 0, written, p);
    assert (out + frame)[..|out + piece|] == out + piece;
  }

  /** Over a connection that carries `left` more bytes and then fails. */
  class FrameWriter {
    const cipher: Aead
    const aad: AAD
    var out: Bytes
    var left: nat
    var seqNo: nat
    ghost var written: seq<Bytes>

    ghost predicate Whole()
      reads this
    {
      out == Stream(cipher, aad, 0, written)
    }

    /** What went out is the frames written, and after a failure a part of one more. */
    ghost predicate Valid()
      reads this
    {
      && seqNo == AdvanceFrom(0, |written|)
      && Stream(cipher, aad, 0, written) <= out
      && (!Whole() ==> left == 0 && exists p :: |p| <= FRAME_SIZE && out <= Stream(cipher, aad, 0, written + [p]))
    }

    constructor (cipher: Aead, aad: AAD, room: nat)
      ensures Valid() && Whole() && written == [] && left == room && this.cipher == cipher && this.aad == aad
    {
      this.cipher, this.aad := cipher, aad;
      out, left, seqNo, written := [], room, 0, [];
    }

    /** The connection's own Write. */
    method Transmit(x: Bytes) returns (ok: bool)
      modifies this`out, this`left
      ensures ok <==> |x| <= old(left)
      ensures out == old(out) + if ok then x else x[..old(left)]
      ensures left == if ok then old(left) - |x| else 0
    {
      if |x| <= left {
        out, left := out + x, left - |x|;
        return true;
      }
      out, left := out + x[..left], 0;
      return false;
    }

    /** One call, one frame. An oversized one is refused and writes nothing; once the connection has failed no frame
        counts as written, and the counter stays. */
    method Write(p: Bytes) returns (ok: bool)
      requires Valid()
      modifies this
      ensures Valid()
      ensures ok <==> |p| <= FRAME_SIZE && old(left) >= |Frame(cipher, aad, old(seqNo), p)|
      ensures if ok then Whole() && written == old(written) + [p] else written == old(written)
      ensures |p| > FRAME_SIZE ==> out == old(out)
    {
      hide Stream, AdvanceFrom, AadBytes, BigEndian;
      if |p| > FRAME_SIZE {
        return false;
      }
      ghost var before := out;
      var ct := cipher.seal(Nonce(seqNo), p, AadBytes(aad, seqNo));
      var head := BigEndian(|ct|, FRAME_HEAD);
      ghost var frame := Frame(cipher, aad, seqNo, p);
      assert frame == head + ct;
      assert |head| > 0 by { HeadIsThere(|ct|); }
      ok := Transmit(head);
      if !ok {
        assert head[..old(left)] <= frame;
        CutIsValid(before, head[..old(left)], frame, p);
        return;
      }
      ok := Transmit(ct);
      if !ok {
        assert before + head + ct[..old(left) - |head|] == before + (head + ct)[..old(left)];
        CutIsValid(before, frame[..old(left)], frame, p);
        return;
      }
      AppendFrame(cipher, aad, written, p, before, ct);
      seqNo := Next(seqNo);
      written := written + [p];
    }

    lemma CutIsValid(before: Bytes, piece: Bytes, frame: Bytes, p: Bytes)
      requires seqNo == AdvanceFrom(0, |written|) && left == 0 && |p| <= FRAME_SIZE
      requires out == before + piece && piece <= frame && frame == Frame(cipher, aad, seqNo, p)
      requires before == Stream(cipher, aad, 0, written) || (piece == [] && Stream(cipher, aad, 0, written) <= before
               && exists q :: |q| <= FRAME_SIZE && before <= Stream(cipher, aad, 0, written + [q]))
      ensures Valid()
    {
      hide Stream, AdvanceFrom, Frame;
      if before == Stream(cipher, aad, 0, written) {
        FrameIsCut(cipher, aad, written, p, before, piece, frame);
      } else {
        assert out == before;
      }
    }

    /** chunkWriter.Write: any length, as frames of at most FRAME_SIZE, up to the first that fails. */
    method WriteChunked(data: Bytes) returns (total: nat, ok: bool)
      requires Valid()
      modifies this
      ensures Valid() && total <= |data| && (ok <==> total == |data|)
      ensures exists k :: 0 <= k <= |Chunks(data)| && written == old(written) + Chunks(data)[..k]
                && total == |Concat(Chunks(data)[..k])|
    {
      hide Stream, AdvanceFrom, Chunks, Concat, Frame;
      var p := data;
      ghost var k := 0;
      total := 0;
      NothingYet(data);
      while |p| > 0
        invariant Valid()
        invariant 0 <= k <= |Chunks(data)| && Chunks(p) == Chunks(data)[k..]
        invariant total + |p| == |data|
        invariant written == old(written) + Chunks(data)[..k] && total == |Concat(Chunks(data)[..k])|
        decreases |p|
      {
        var n := if |p| > FRAME_SIZE then FRAME_SIZE else |p|;
        ChunksStep(p, n);
        ok := Write(p[..n]);
        if !ok {
          return;
        }
        NextChunk(Chunks(data), k, p[..n]);
        total := total + n;
        p, k := p[n..], k + 1;
      }
      ok := true;
    }
  }

  lemma HeadIsThere(n: nat)
    ensures |BigEndian(n, FRAME_HEAD)| > 0
  {
  }

  lemma NothingYet(data: Bytes)
    ensures Chunks(data)[..0] == [] && Concat(Chunks(data)[..0]) == [] && Chunks(data)[0..] == Chunks(data)
  {
  }

  lemma NextChunk(chunks: seq<Bytes>, k: nat, piece: Bytes)
    requires k < |chunks| && chunks[k] == piece
    ensures |Concat(chunks[..k + 1])| == |Concat(chunks[..k])| + |piece| && chunks[..k + 1] == chunks[..k] + [piece]
  {
    ConcatAppend(chunks[..k], [piece]);
    assert [piece][1..] == [];
    assert chunks[..k + 1] == chunks[..k] + [piece];
  }

  // ---- Reading

  datatype Reader = Reader(input: Bytes, seqNo: nat, buf: Bytes, done: bool)

  datatype Got = Data(bytes: Bytes) | Eof | Short | BadFrame

  datatype Step = Filled | Ended | Cut | Rejected

  /** Decrypt the next frame. Bytes taken from the input stay taken, whatever comes of them. */
  function NextFrame(c: Aead, aad: AAD, r: Reader): (Reader, Step) {
    if |r.input| == 0 then (r.(done := true), Ended)
    else if |r.input| < FRAME_HEAD then (r.(input := []), Cut)
    else
      var size := Number(r.input[..FRAME_HEAD]);
      var rest := r.input[FRAME_HEAD..];
      if size < OVERHEAD || size > MAX_FRAME then (r.(input := rest), Rejected)
      else if |rest| < size then (r.(input := []), Cut)
      else match c.open(Nonce(r.seqNo), rest[..size], AadBytes(aad, r.seqNo))
        case None => (r.(input := rest[size..]), Rejected)
        case Some(pt) => (r.(input := rest[size..], seqNo := Next(r.seqNo), buf := pt), Filled)
  }

  function Read(c: Aead, aad: AAD, r: Reader, n: nat): (Reader, Got)
    decreases |r.input|
  {
    if |r.buf| > 0 then
      var m := if n < |r.buf| then n else |r.buf|;
      (r.(buf := r.buf[m..]), Data(r.buf[..m]))
    else if r.done then (r, Eof)
    else
      var (r1, st) := NextFrame(c, aad, r);
      match st
      case Ended => (r1, Eof)
      case Cut => (r1, Short)
      case Rejected => (r1, BadFrame)
      case Filled => Read(c, aad, r1, n)
  }

  class FrameReader {
    const cipher: Aead
    const aad: AAD
    var input: Bytes
    var seqNo: nat
    var buf: Bytes
    var done: bool

    function View(): Reader
      reads this
    {
      Reader(input, seqNo, buf, done)
    }

    constructor (input: Bytes, cipher: Aead, aad: AAD)
      ensures View() == Reader(input, 0, [], false) && this.cipher == cipher && this.aad == aad
    {
      this.cipher, this.aad, this.input := cipher, aad, input;
      seqNo, buf, done := 0, [], false;
    }

    method Fetch(n: nat) returns (r: Got)
      modifies this
      ensures (View(), r) == Read(cipher, aad, old(View()), n)
    {
      while |buf| == 0
        invariant Read(cipher, aad, View(), n) == Read(cipher, aad, old(View()), n)
        decreases |input|, |buf| == 0
      {
        if done {
          return Eof;
        }
        var st := FetchFrame();
        match st
        case Ended => return Eof;
        case Cut => return Short;
        case Rejected => return BadFrame;
        case Filled =>
      }
      var m := if n < |buf| then n else |buf|;
      r := Data(buf[..m]);
      buf := buf[m..];
    }

    method FetchFrame() returns (st: Step)
      modifies this
      ensures (View(), st) == NextFrame(cipher, aad, old(View()))
    {
      if |input| == 0 {
        done := true;
        return Ended;
      }
      if |input| < FRAME_HEAD {
        input := [];
        return Cut;
      }
      var size := Number(input[..FRAME_HEAD]);
      input := input[FRAME_HEAD..];
      if size < OVERHEAD || size > MAX_FRAME {
        return Rejected;
      }
      if |input| < size {
        input := [];
        return Cut;
      }
      var ct := input[..size];
      input := input[size..];
      var pt := cipher.open(Nonce(seqNo), ct, AadBytes(aad, seqNo));
      if pt.None? {
        return Rejected;
      }
      seqNo := Next(seqNo);
      buf := pt.value;
      return Filled;
    }
  }

  /** What a caller collects from reads of the given sizes, going on after errors. */
  function Drain(c: Aead, aad: AAD, r: Reader, sizes: seq<nat>): Bytes
    decreases |sizes|
  {
    if |sizes| == 0 then []
    else
      var (r1, g) := Read(c, aad, r, sizes[0]);
      (if g.Data? then g.bytes else []) + Drain(c, aad, r1, sizes[1..])
  }

  // ---- Round trip

  ghost predicate Faithful(c: Aead, aad: AAD, r: Reader, msgs: seq<Bytes>) {
    && r.input == Stream(c, aad, r.seqNo, msgs)
    && Opens(c, aad, r.seqNo, msgs)
    && (r.done ==> msgs == [])
    && forall i :: 0 <= i < |msgs| ==> |msgs[i]| <= FRAME_SIZE
  }

  lemma HeadNumber(n: nat)
    requires n <= MAX_FRAME
    ensures Number(BigEndian(n, FRAME_HEAD)) == n
  {
    assert Pow256(4) == 0x1_0000_0000;
    NumberOfBigEndian(n, FRAME_HEAD);
  }

  lemma NextFrameOpens(c: Aead, aad: AAD, r: Reader, msgs: seq<Bytes>)
    requires Faithful(c, aad, r, msgs) && |msgs| > 0
    ensures var (r1, st) := NextFrame(c, aad, r);
            st == Filled && r1.buf == msgs[0] && r1.done == r.done && Faithful(c, aad, r1, msgs[1..])
  {
    hide AadBytes, Nonce, BigEndian, Number;
    var p := msgs[0];
    var ct := c.seal(Nonce(r.seqNo), p, AadBytes(aad, r.seqNo));
    var rest := Stream(c, aad, Next(r.seqNo), msgs[1..]);
    assert r.input == BigEndian(|ct|, FRAME_HEAD) + ct + rest;
    assert r.input[..FRAME_HEAD] == BigEndian(|ct|, FRAME_HEAD);
    HeadNumber(|ct|);
    assert r.input[FRAME_HEAD..] == ct + rest;
    assert (ct + rest)[..|ct|] == ct && (ct + rest)[|ct|..] == rest;
  }

  /** Each read hands over a piece of what is left, in order; end of stream only when nothing is left. */
  lemma {:induction false} ReadFaithful(c: Aead, aad: AAD, r: Reader, msgs: seq<Bytes>, n: nat)
    returns (left: seq<Bytes>)
    requires Faithful(c, aad, r, msgs)
    ensures var (r1, g) := Read(c, aad, r, n);
            && Faithful(c, aad, r1, left)
            && (g.Data? ==> g.bytes + (r1.buf + Concat(left)) == r.buf + Concat(msgs))
            && (g.Data? && n > 0 ==> |g.bytes| > 0)
            && (!g.Data? ==> g == Eof && r.buf + Concat(msgs) == [] && r1.buf + Concat(left) == [])
    decreases |msgs|
  {
    hide Stream, NextFrame, Opens;
    left := msgs;
    if |r.buf| > 0 {
      var m := if n < |r.buf| then n else |r.buf|;
      assert r.buf[..m] + (r.buf[m..] + Concat(left)) == r.buf + Concat(msgs);
    } else if !r.done {
      if |msgs| > 0 {
        NextFrameOpens(c, aad, r, msgs);
        left := ReadFaithful(c, aad, NextFrame(c, aad, r).0, msgs[1..], n);
      } else {
        NextFrameEnds(c, aad, r);
      }
    }
  }

  lemma NextFrameEnds(c: Aead, aad: AAD, r: Reader)
    requires Faithful(c, aad, r, [])
    ensures NextFrame(c, aad, r) == (r.(done := true), Ended)
  {
  }

  /** Whatever the read sizes, the collected bytes are a prefix of what was written; once the reads, none
      of them empty, outnumber the bytes, they are all of it. */
  lemma {:induction false} DrainFaithful(c: Aead, aad: AAD, r: Reader, msgs: seq<Bytes>, sizes: seq<nat>)
    requires Faithful(c, aad, r, msgs)
    ensures Drain(c, aad, r, sizes) <= r.buf + Concat(msgs)
    ensures (forall i :: 0 <= i < |sizes| ==> sizes[i] > 0) && |sizes| >= |r.buf + Concat(msgs)| ==>
              Drain(c, aad, r, sizes) == r.buf + Concat(msgs)
    decreases |sizes|
  {
    if |sizes| > 0 {
      var left := ReadFaithful(c, aad, r, msgs, sizes[0]);
      var (r1, g) := Read(c, aad, r, sizes[0]);
      DrainFaithful(c, aad, r1, left, sizes[1..]);
      assert |r1.buf + Concat(left)| == |r1.buf| + |Concat(left)|;
      if g.Data? {
        PrefixUnder(g.bytes, Drain(c, aad, r1, sizes[1..]), r1.buf + Concat(left));
      }
    }
  }

  lemma PrefixUnder(a: Bytes, b: Bytes, c: Bytes)
    requires b <= c
    ensures a + b <= a + c
  {
    assert (a + c)[..|a + b|] == a + b;
  }

  /** The codec's round trip: any sequence of writes of any lengths through chunkWriter, read back with any buffer
      sizes, comes out as the bytes written, in order. */
  lemma RoundTrip(c: Aead, aad: AAD, writes: seq<Bytes>, sizes: seq<nat>)
    requires Opens(c, aad, 0, ChunksOf(writes))
    ensures var out := Drain(c, aad, Reader(Stream(c, aad, 0, ChunksOf(writes)), 0, [], false), sizes);
            && out <= Concat(writes)
            && ((forall i :: 0 <= i < |sizes| ==> sizes[i] > 0) && |sizes| >= |Concat(writes)| ==>
               out == Concat(writes))
  {
    hide Stream, Opens, ChunksOf, Drain, Concat;
    ChunksOfFit(writes);
    var r := Reader(Stream(c, aad, 0, ChunksOf(writes)), 0, [], false);
    assert r.buf + Concat(ChunksOf(writes)) == Concat(writes);
    DrainFaithful(c, aad, r, ChunksOf(writes), sizes);
  }

  /** Frame i of a stream is the big-endian length, then the message sealed under the nonce and the associated data
      of number i. */
  lemma {:induction false} FrameOnWire(c: Aead, aad: AAD, k: nat, msgs: seq<Bytes>, i: nat) returns (a: Bytes, b: Bytes)
    requires i < |msgs| && k + |msgs| <= SEQ_LIMIT
    ensures var ct := c.seal(Nonce(k + i), msgs[i], AadBytes(aad, k + i));
            Stream(c, aad, k, msgs) == a + (BigEndian(|ct|, FRAME_HEAD) + ct) + b
    ensures a == Stream(c, aad, k, msgs[..i])
    decreases |msgs|
  {
    hide AadBytes, Nonce, BigEndian;
    if i == 0 {
      a, b := [], Stream(c, aad, Next(k), msgs[1..]);
      assert msgs[..0] == [];
    } else {
      a, b := FrameOnWire(c, aad, k + 1, msgs[1..], i - 1);
      var f := Frame(c, aad, k, msgs[0]);
      assert msgs[..i][1..] == msgs[1..][..i - 1] && msgs[..i][0] == msgs[0];
      var ct := c.seal(Nonce(k + i), msgs[i], AadBytes(aad, k + i));
      assert f + (a + (BigEndian(|ct|, FRAME_HEAD) + ct) + b) == (f + a) + (BigEndian(|ct|, FRAME_HEAD) + ct) + b;
      a := f + a;
    }
  }

  // ---- What a read reports

  lemma {:induction false} NumberIsRead(b: Bytes)
    ensures BigEndian(Number(b), |b|) == b
  {
    if |b| > 0 {
      var front := b[..|b| - 1];
      NumberIsRead(front);
      assert Number(b) / 256 == Number(front) && Number(b) % 256 == b[|b| - 1];
    }
  }

  /** At most one front of the input is a whole frame. */
  lemma FrameIsOne(c: Aead, aad: AAD, k: nat, input: Bytes, i: nat, plain: Bytes)
    requires i <= |input| && IsFrame(c, aad, k, input[..i], plain)
    ensures 20 <= i && i - 4 == Number(input[..4]) && 16 <= i - 4 <= 65552
    ensures c.open(Nonce(k), input[4..][..i - 4], AadBytes(aad, k)) == Some(plain)
  {
    hide AadBytes, Nonce, BigEndian, Number;
    HeadNumber(i - 4);
    assert input[..i][..4] == input[..4] && input[..i][4..] == input[4..][..i - 4];
  }

  /** Decrypting the next frame of any input. */
  lemma NextTells(c: Aead, aad: AAD, r: Reader)
    ensures var (r1, st) := NextFrame(c, aad, r);
            && (st == Ended <==> r.input == [])
            && (st == Cut <==> BreaksOff(r.input))
            && (st == Filled <==> HoldsFrame(c, aad, r.seqNo, r.input))
            && (st == Filled ==>
                  && |r1.input| < |r.input| && r1.input == r.input[|r.input| - |r1.input|..]
                  && IsFrame(c, aad, r.seqNo, r.input[..|r.input| - |r1.input|], r1.buf)
                  && r1.seqNo == Next(r.seqNo) && r1.done == r.done)
            && (st != Filled ==> r1.buf == r.buf && r1.seqNo == r.seqNo && r1.done == (r.done || st == Ended))
            && forall i, p :: 0 <= i <= |r.input| && IsFrame(c, aad, r.seqNo, r.input[..i], p) ==>
                 st == Filled && r1.buf == p && r1.input == r.input[i..]
  {
    hide AadBytes, Nonce, BigEndian, Number;
    var (r1, st) := NextFrame(c, aad, r);
    if st == Filled {
      var size := Number(r.input[..4]);
      NumberIsRead(r.input[..4]);
      var f := r.input[..4 + size];
      assert f[..4] == r.input[..4] && f[4..] == r.input[4..][..size];
      assert IsFrame(c, aad, r.seqNo, f, r1.buf);
    }
    forall i, p | 0 <= i <= |r.input| && IsFrame(c, aad, r.seqNo, r.input[..i], p)
      ensures st == Filled && r1.buf == p && r1.input == r.input[i..]
    {
      FrameIsOne(c, aad, r.seqNo, r.input, i, p);
    }
  }

  /** A whole frame that opens as number k: a length between the tag's and a full chunk's, and so many bytes. */
  ghost predicate IsFrame(c: Aead, aad: AAD, k: nat, bytes: Bytes, plain: Bytes) {
    && |bytes| >= 4 && 16 <= |bytes| - 4 <= 65552 && bytes[..4] == BigEndian(|bytes| - 4, 4)
    && c.open(Nonce(k), bytes[4..], AadBytes(aad, k)) == Some(plain)
  }

  /** Frames without data, one after the other. */
  ghost predicate Empties(c: Aead, aad: AAD, k: nat, frames: seq<Bytes>)
    decreases |frames|
  {
    |frames| > 0 ==> IsFrame(c, aad, k, frames[0], []) && Empties(c, aad, Next(k), frames[1..])
  }

  ghost predicate HoldsFrame(c: Aead, aad: AAD, k: nat, rest: Bytes) {
    exists i, p :: 0 <= i <= |rest| && IsFrame(c, aad, k, rest[..i], p)
  }

  /** `rest` breaks off inside a frame: in its length, or after an allowed length. */
  ghost predicate BreaksOff(rest: Bytes) {
    0 < |rest| < 4 || (|rest| >= 4 && 16 <= Number(rest[..4]) <= 65552 && |rest| - 4 < Number(rest[..4]))
  }

  /** Whatever the input, a read passes over whole frames without data and then tells what comes next: `Eof` exactly
      when nothing does, `Short` exactly when the input breaks off inside a frame, data exactly when a whole frame
      opens, which then stands in the buffer less the piece handed over, and otherwise `BadFrame`. */
  lemma {:induction false} ReadTells(c: Aead, aad: AAD, r: Reader, n: nat) returns (skipped: seq<Bytes>, rest: Bytes)
    requires r.buf == [] && !r.done
    ensures r.input == Concat(skipped) + rest && Empties(c, aad, r.seqNo, skipped)
    ensures var (r1, g) := Read(c, aad, r, n);
            var k := AdvanceFrom(r.seqNo, |skipped|);
            && (g == Eof <==> rest == [])
            && (g == Short <==> BreaksOff(rest))
            && (g.Data? <==> HoldsFrame(c, aad, k, rest))
            && (forall i, p :: 0 <= i <= |rest| && IsFrame(c, aad, k, rest[..i], p) ==>
                  p != [] && g.Data? && g.bytes + r1.buf == p && (|g.bytes| == n || r1.buf == []) && |g.bytes| <= n
                  && r1.input == rest[i..] && r1.seqNo == Next(k))
            && (!g.Data? ==> r1.buf == [] && r1.seqNo == k)
            && (r1.done <==> g == Eof)
    decreases |r.input|
  {
    hide NextFrame, IsFrame, BreaksOff, HoldsFrame;
    skipped, rest := [], r.input;
    NextTells(c, aad, r);
    var (r1, st) := NextFrame(c, aad, r);
    if st == Filled && r1.buf == [] {
      var f := r.input[..|r.input| - |r1.input|];
      var more;
      more, rest := ReadTells(c, aad, r1, n);
      skipped := [f] + more;
      assert skipped[1..] == more;
      assert r.input == f + r1.input;
    } else {
      assert AdvanceFrom(r.seqNo, |skipped|) == r.seqNo;
    }
  }

  // ---- Tampering

  /** Of an arbitrary input, a frame that opens is the next message of the writer. */
  lemma OpensOnlyNext(c: Aead, aad: AAD, msgs: seq<Bytes>, k: nat, ct: Bytes)
    requires Unforgeable(c, aad, msgs) && NulFree(aad)
    requires c.open(Nonce(k), ct, AadBytes(aad, k)).Some?
    ensures k < |msgs| && c.open(Nonce(k), ct, AadBytes(aad, k)).value == msgs[k]
  {
    var p := c.open(Nonce(k), ct, AadBytes(aad, k)).value;
    assert c.open(Nonce(k), ct, AadBytes(aad, k)) == Some(p);
    if Own(aad, msgs, AadBytes(aad, k), p) {
      var i :| 0 <= i < |msgs| && AadBytes(aad, k) == AadBytes(aad, i) && p == msgs[i];
      AadInjective(aad, aad, k, i);
    } else {
      var b, i :| b != aad && NulFree(b) && AadBytes(aad, k) == AadBytes(b, i);
      AadInjective(aad, b, k, i);
    }
  }

  /** Between reads the reader stands at message `seqNo`. */
  ghost predicate Standing(r: Reader, msgs: seq<Bytes>) { r.seqNo <= |msgs| < SEQ_LIMIT }

  lemma ConcatFrom(msgs: seq<Bytes>, k: nat)
    requires k < |msgs|
    ensures Concat(msgs[k..]) == msgs[k] + Concat(msgs[k + 1..])
  {
    assert msgs[k..][1..] == msgs[k + 1..];
  }

  lemma NextUnforged(c: Aead, aad: AAD, r: Reader, msgs: seq<Bytes>)
    requires Unforgeable(c, aad, msgs) && NulFree(aad) && Standing(r, msgs)
    ensures var (r1, st) := NextFrame(c, aad, r);
            if st == Filled then
              && r.seqNo < |msgs| && r1.buf == msgs[r.seqNo] && r1.seqNo == r.seqNo + 1 && |r1.input| < |r.input|
            else r1.buf == r.buf && r1.seqNo == r.seqNo
  {
    var (r1, st) := NextFrame(c, aad, r);
    if st == Filled {
      var size := Number(r.input[..FRAME_HEAD]);
      OpensOnlyNext(c, aad, msgs, r.seqNo, r.input[FRAME_HEAD..][..size]);
    }
    hide Unforgeable, AadBytes, Nonce, Number;
  }

  lemma {:induction false} ReadUnforged(c: Aead, aad: AAD, r: Reader, msgs: seq<Bytes>, n: nat)
    requires Unforgeable(c, aad, msgs) && NulFree(aad) && Standing(r, msgs)
    ensures var (r1, g) := Read(c, aad, r, n);
            && Standing(r1, msgs)
            && (if g.Data? then g.bytes else []) + (r1.buf + Concat(msgs[r1.seqNo..])) == r.buf
               + Concat(msgs[r.seqNo..])
    decreases |r.input|
  {
    if |r.buf| > 0 {
      var m := if n < |r.buf| then n else |r.buf|;
      assert r.buf == r.buf[..m] + r.buf[m..];
    } else if !r.done {
      hide Unforgeable, NextFrame, Concat;
      NextUnforged(c, aad, r, msgs);
      var (r1, st) := NextFrame(c, aad, r);
      if st == Filled {
        ConcatFrom(msgs, r.seqNo);
        ReadUnforged(c, aad, r1, msgs, n);
      }
    }
  }

  /** Whatever arrives instead of the stream (frames dropped, reordered, repeated, altered, or taken from
      another sync), and whatever reads follow, even after errors, the bytes handed over are a prefix of
      what was written. */
  lemma {:induction false} TamperedIsPrefix(c: Aead, aad: AAD, r: Reader, msgs: seq<Bytes>, sizes: seq<nat>)
    requires Unforgeable(c, aad, msgs) && NulFree(aad) && Standing(r, msgs)
    ensures Drain(c, aad, r, sizes) <= r.buf + Concat(msgs[r.seqNo..])
    decreases |sizes|
  {
    if |sizes| > 0 {
      ReadUnforged(c, aad, r, msgs, sizes[0]);
      var (r1, g) := Read(c, aad, r, sizes[0]);
      TamperedIsPrefix(c, aad, r1, msgs, sizes[1..]);
      PrefixUnder(if g.Data? then g.bytes else [], Drain(c, aad, r1, sizes[1..]), r1.buf + Concat(msgs[r1.seqNo..]));
    }
  }

  lemma TamperedStreamIsPrefix(c: Aead, aad: AAD, input: Bytes, writes: seq<Bytes>, sizes: seq<nat>)
    requires Unforgeable(c, aad, ChunksOf(writes)) && NulFree(aad) && |ChunksOf(writes)| < SEQ_LIMIT
    ensures Drain(c, aad, Reader(input, 0, [], false), sizes) <= Concat(writes)
  {
    hide Unforgeable, ChunksOf, Drain, Concat;
    TamperedIsPrefix(c, aad, Reader(input, 0, [], false), ChunksOf(writes), sizes);
    ChunksOfFit(writes);
    assert ChunksOf(writes)[0..] == ChunksOf(writes);
    assert [] + Concat(writes) == Concat(writes);
  }

  // ---- Cut streams

  /** A caller that reads buffers of n bytes until something other than data comes back: what it has collected, and
      what came. */
  function ReadOn(c: Aead, aad: AAD, r: Reader, n: nat): (Bytes, Got)
    requires n > 0
    decreases |r.input|, |r.buf|
  {
    var (r1, g) := Read(c, aad, r, n);
    ReadShrinks(c, aad, r, n);
    if !g.Data? then ([], g)
    else
      var (bytes, end) := ReadOn(c, aad, r1, n);
      (g.bytes + bytes, end)
  }

  lemma {:induction false} ReadShrinks(c: Aead, aad: AAD, r: Reader, n: nat)
    requires n > 0
    ensures var (r1, g) := Read(c, aad, r, n);
            g.Data? ==> |r1.input| < |r.input| || (r1.input == r.input && |r1.buf| < |r.buf|)
    decreases |r.input|
  {
    hide AadBytes, Nonce, Number;
    if |r.buf| == 0 && !r.done {
      var (r1, st) := NextFrame(c, aad, r);
      if st == Filled {
        ReadShrinks(c, aad, r1, n);
      }
    }
  }

  /** The reader stands before the frames of `msgs`, of which the input holds `frames` whole ones and then a piece
      of the next, empty if the cut falls between frames. */
  ghost predicate CutAfter(c: Aead, aad: AAD, r: Reader, msgs: seq<Bytes>, frames: nat, piece: Bytes) {
    && Opens(c, aad, r.seqNo, msgs) && !r.done && frames <= |msgs|
    && (forall i :: 0 <= i < |msgs| ==> |msgs[i]| <= FRAME_SIZE)
    && r.input == Stream(c, aad, r.seqNo, msgs[..frames]) + piece
    && (piece != [] ==> frames < |msgs| && piece < Frame(c, aad, AdvanceFrom(r.seqNo, frames), msgs[frames]))
  }

  /** Where a prefix of a stream ends: after some whole frames, inside the next or not. */
  lemma {:induction false} PrefixIsCut(c: Aead, aad: AAD, k: nat, msgs: seq<Bytes>, kept: Bytes)
    returns (frames: nat, piece: Bytes)
    requires kept <= Stream(c, aad, k, msgs)
    ensures frames <= |msgs| && kept == Stream(c, aad, k, msgs[..frames]) + piece
    ensures piece != [] ==> frames < |msgs| && piece < Frame(c, aad, AdvanceFrom(k, frames), msgs[frames])
    decreases |msgs|
  {
    hide Frame;
    if |msgs| == 0 || |kept| < |Frame(c, aad, k, msgs[0])| {
      frames, piece := 0, kept;
      assert msgs[..0] == [];
      if |msgs| > 0 {
        var f := Frame(c, aad, k, msgs[0]);
        assert f == Stream(c, aad, k, msgs)[..|f|];
        assert kept == f[..|kept|];
      }
    } else {
      var f := Frame(c, aad, k, msgs[0]);
      assert f == Stream(c, aad, k, msgs)[..|f|] == kept[..|f|];
      assert kept[|f|..] <= Stream(c, aad, Next(k), msgs[1..]) by {
        assert Stream(c, aad, k, msgs)[|f|..] == Stream(c, aad, Next(k), msgs[1..]);
      }
      frames, piece := PrefixIsCut(c, aad, Next(k), msgs[1..], kept[|f|..]);
      frames := frames + 1;
      assert msgs[..frames][0] == msgs[0] && msgs[..frames][1..] == msgs[1..][..frames - 1];
      assert kept == f + kept[|f|..];
    }
  }

  /** With a whole frame ahead the next read step takes it; with a piece it reports a cut; with nothing the end. */
  lemma CutStep(c: Aead, aad: AAD, r: Reader, msgs: seq<Bytes>, frames: nat, piece: Bytes)
    requires CutAfter(c, aad, r, msgs, frames, piece)
    ensures var (r1, st) := NextFrame(c, aad, r);
            && (frames > 0 ==> st == Filled && r1.buf == msgs[0] && CutAfter(c, aad, r1, msgs[1..], frames - 1, piece))
            && (frames == 0 ==> st == if piece == [] then Ended else Cut)
  {
    hide AadBytes, Nonce, BigEndian, Number, Stream;
    if frames > 0 {
      var rest := Stream(c, aad, Next(r.seqNo), msgs[..frames][1..]);
      StreamHead(c, aad, r.seqNo, msgs[..frames]);
      assert msgs[..frames][1..] == msgs[1..][..frames - 1];
      FrameTaken(c, aad, r, msgs[0], rest + piece);
    } else {
      StreamNone(c, aad, r.seqNo);
      assert msgs[..0] == [] && [] + piece == piece;
      if piece != [] {
        PieceIsCut(c, aad, r, msgs[0]);
      }
    }
  }

  lemma StreamHead(c: Aead, aad: AAD, k: nat, msgs: seq<Bytes>)
    requires |msgs| > 0
    ensures Stream(c, aad, k, msgs) == Frame(c, aad, k, msgs[0]) + Stream(c, aad, Next(k), msgs[1..])
  {
    hide Frame;
  }

  lemma StreamNone(c: Aead, aad: AAD, k: nat)
    ensures Stream(c, aad, k, []) == []
  {
  }

  lemma FrameTaken(c: Aead, aad: AAD, r: Reader, p: Bytes, rest: Bytes)
    requires |p| <= FRAME_SIZE && r.input == Frame(c, aad, r.seqNo, p) + rest
    requires var ct := c.seal(Nonce(r.seqNo), p, AadBytes(aad, r.seqNo));
             |ct| == |p| + OVERHEAD && c.open(Nonce(r.seqNo), ct, AadBytes(aad, r.seqNo)) == Some(p)
    ensures NextFrame(c, aad, r) == (r.(input := rest, seqNo := Next(r.seqNo), buf := p), Filled)
  {
    hide AadBytes, Nonce, BigEndian, Number;
    var ct := c.seal(Nonce(r.seqNo), p, AadBytes(aad, r.seqNo));
    assert r.input[..FRAME_HEAD] == BigEndian(|ct|, FRAME_HEAD);
    HeadNumber(|ct|);
    assert r.input[FRAME_HEAD..] == ct + rest;
    assert (ct + rest)[..|ct|] == ct && (ct + rest)[|ct|..] == rest;
  }

  lemma PieceIsCut(c: Aead, aad: AAD, r: Reader, p: Bytes)
    requires |p| <= FRAME_SIZE && 0 < |r.input| && r.input < Frame(c, aad, r.seqNo, p)
    requires |c.seal(Nonce(r.seqNo), p, AadBytes(aad, r.seqNo))| == |p| + OVERHEAD
    ensures NextFrame(c, aad, r).1 == Cut
  {
    hide AadBytes, Nonce, BigEndian, Number;
    var ct := c.seal(Nonce(r.seqNo), p, AadBytes(aad, r.seqNo));
    if |r.input| >= FRAME_HEAD {
      assert r.input[..FRAME_HEAD] == Frame(c, aad, r.seqNo, p)[..FRAME_HEAD] == BigEndian(|ct|, FRAME_HEAD);
      HeadNumber(|ct|);
    }
  }

  /** Reading on from there collects the whole frames and then ends quietly or reports a short read. */
  lemma {:induction false} CutReads(c: Aead, aad: AAD, r: Reader, msgs: seq<Bytes>, frames: nat, piece: Bytes, n: nat)
    requires n > 0 && CutAfter(c, aad, r, msgs, frames, piece)
    ensures ReadOn(c, aad, r, n) == (r.buf + Concat(msgs[..frames]), if piece == [] then Eof else Short)
    decreases |r.input|, |r.buf|
  {
    hide Stream, Opens, NextFrame, Frame, Concat;
    if |r.buf| > 0 {
      var m := if n < |r.buf| then n else |r.buf|;
      var r1 := r.(buf := r.buf[m..]);
      CutReads(c, aad, r1, msgs, frames, piece, n);
      assert r.buf[..m] + (r.buf[m..] + Concat(msgs[..frames])) == r.buf + Concat(msgs[..frames]);
    } else {
      CutStep(c, aad, r, msgs, frames, piece);
      if frames > 0 {
        var r1 := NextFrame(c, aad, r).0;
        NextShrinks(c, aad, r);
        CutReads(c, aad, r1, msgs[1..], frames - 1, piece, n);
        ConcatHead(msgs, frames);
        ReadSkips(c, aad, r, n);
        assert r.buf + Concat(msgs[..frames]) == Concat(msgs[..frames]);
      } else {
        ConcatNone();
        assert msgs[..0] == [] && r.buf + [] == [];
      }
    }
  }

  lemma NextShrinks(c: Aead, aad: AAD, r: Reader)
    ensures NextFrame(c, aad, r).1 == Filled ==> |NextFrame(c, aad, r).0.input| < |r.input|
  {
    hide AadBytes, Nonce, Number;
  }

  lemma ConcatNone()
    ensures Concat([]) == []
  {
  }

  lemma ConcatHead(msgs: seq<Bytes>, frames: nat)
    requires 0 < frames <= |msgs|
    ensures Concat(msgs[..frames]) == msgs[0] + Concat(msgs[1..][..frames - 1])
  {
    assert msgs[..frames][1..] == msgs[1..][..frames - 1];
  }

  /** A read from an empty buffer with a frame ahead is the read after taking the frame. */
  lemma ReadSkips(c: Aead, aad: AAD, r: Reader, n: nat)
    requires n > 0 && |r.buf| == 0 && !r.done && NextFrame(c, aad, r).1 == Filled
    ensures ReadOn(c, aad, r, n) == ReadOn(c, aad, NextFrame(c, aad, r).0, n)
  {
    hide NextFrame;
    assert Read(c, aad, r, n) == Read(c, aad, NextFrame(c, aad, r).0, n);
  }

  /** A stream cut short anywhere: the reader collects the messages whose frames arrived whole and is never handed a
      bad frame; it ends as if the writer had exactly when the cut falls between two frames, and otherwise reports
      a short read. */
  lemma CutEndsQuietlyIff(c: Aead, aad: AAD, msgs: seq<Bytes>, kept: Bytes, n: nat)
    requires n > 0 && Opens(c, aad, 0, msgs) && kept <= Stream(c, aad, 0, msgs)
    requires forall i :: 0 <= i < |msgs| ==> |msgs[i]| <= FRAME_SIZE
    ensures var (bytes, end) := ReadOn(c, aad, Reader(kept, 0, [], false), n);
            && (end == Eof || end == Short)
            && (end == Eof <==> exists j :: 0 <= j <= |msgs| && kept == Stream(c, aad, 0, msgs[..j]))
            && exists j :: 0 <= j <= |msgs| && bytes == Concat(msgs[..j]) && Stream(c, aad, 0, msgs[..j]) <= kept
  {
    hide Stream, Opens, Frame, Concat, ReadOn;
    var frames, piece := PrefixIsCut(c, aad, 0, msgs, kept);
    var r := Reader(kept, 0, [], false);
    CutReads(c, aad, r, msgs, frames, piece, n);
    assert [] + Concat(msgs[..frames]) == Concat(msgs[..frames]);
    if piece == [] {
      assert kept == Stream(c, aad, 0, msgs[..frames]);
    } else {
      forall j | 0 <= j <= |msgs| ensures kept != Stream(c, aad, 0, msgs[..j]) {
        StreamLength(c, aad, 0, msgs, frames, j);
      }
    }
  }

  /** The streams of fewer messages are shorter by at least the frames between. */
  lemma {:induction false} StreamLength(c: Aead, aad: AAD, k: nat, msgs: seq<Bytes>, i: nat, j: nat)
    requires i <= |msgs| && j <= |msgs|
    ensures j <= i ==> |Stream(c, aad, k, msgs[..j])| <= |Stream(c, aad, k, msgs[..i])|
    ensures j > i ==>
              |Stream(c, aad, k, msgs[..j])|
              >= |Stream(c, aad, k, msgs[..i])| + |Frame(c, aad, AdvanceFrom(k, i), msgs[i])|
    decreases |msgs|
  {
    hide Frame, Stream;
    StreamNone(c, aad, k);
    if i == 0 || j == 0 {
      assert msgs[..0] == [];
      if j > 0 {
        StreamHead(c, aad, k, msgs[..j]);
        assert msgs[..j][0] == msgs[0];
      }
    } else {
      StreamHead(c, aad, k, msgs[..i]);
      StreamHead(c, aad, k, msgs[..j]);
      assert msgs[..i][1..] == msgs[1..][..i - 1] && msgs[..j][1..] == msgs[1..][..j - 1];
      StreamLength(c, aad, Next(k), msgs[1..], i - 1, j - 1);
    }
  }

  /** The two assumptions about the cipher can be met together. */
  lemma IdealCipherExists(aad: AAD, msgs: seq<Bytes>) returns (c: Aead)
    requires |msgs| < SEQ_LIMIT
    ensures Opens(c, aad, 0, msgs) && Unforgeable(c, aad, msgs)
  {
    var tag: Bytes := seq(OVERHEAD, _ => 0);
    var open := (n: Bytes, ct: Bytes, d: string) =>
      if |ct| >= OVERHEAD && Own(aad, msgs, d, ct[..|ct| - OVERHEAD]) then Some(ct[..|ct| - OVERHEAD]) else None;
    c := Aead((n: Bytes, p: Bytes, d: string) => p + tag, open);
    assert msgs[0..] == msgs;
    OpensFrom(c, aad, msgs, 0, tag);
  }

  lemma {:induction false} OpensFrom(c: Aead, aad: AAD, msgs: seq<Bytes>, k: nat, tag: Bytes)
    requires k <= |msgs| < SEQ_LIMIT && |tag| == OVERHEAD
    requires forall n, p, d :: c.seal(n, p, d) == p + tag
    requires forall n, p, d :: Own(aad, msgs, d, p) ==> c.open(n, p + tag, d) == Some(p)
    ensures Opens(c, aad, k, msgs[k..])
    decreases |msgs| - k
  {
    if k < |msgs| {
      assert msgs[k..][1..] == msgs[k + 1..];
      assert Own(aad, msgs, AadBytes(aad, k), msgs[k]);
      assert Next(k) == k + 1;
      hide AadBytes, Nonce, Own;
      OpensFrom(c, aad, msgs, k + 1, tag);
    }
  }
}
