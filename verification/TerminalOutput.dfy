/** Re-chunking of terminal output into frames of whole characters (server/internal/httpapi/terminal.go). */
module TerminalOutput {

  type Byte = b: int | 0 <= b < 256
  type Bytes = seq<Byte>

  // ---- Where to cut: splitUTF8

  /** Bytes in a character that starts with `c`; 0 if none does. */
  function CharSize(c: Byte): nat {
    if 0xC2 <= c < 0xE0 then 2 else if 0xE0 <= c < 0xF0 then 3 else if 0xF0 <= c <= 0xF4 then 4 else 0
  }

  /** The backward scan from the `i`-th byte before the end: how many trailing bytes to hold. */
  function Scan(b: Bytes, i: nat): (h: nat)
    requires i >= 1
    ensures h <= 3 && h <= |b|
    decreases 4 - i
  {
    if i > 3 || i > |b| then 0
    else
      var c := b[|b| - i];
      if c < 0x80 then 0
      else if c >= 0xC2 then (if i < CharSize(c) then i else 0)
      else Scan(b, i + 1)
  }

  function Hold(b: Bytes): (h: nat)
    ensures h <= 3 && h <= |b|
  {
    Scan(b, 1)
  }

  method SplitUTF8(b: Bytes) returns (n: nat, hold: nat)
    ensures hold == Hold(b) && n == |b| - hold
  {
    var i := 1;
    while i <= 3 && i <= |b|
      invariant 1 <= i <= 4
      invariant Scan(b, 1) == Scan(b, i)
    {
      var c := b[|b| - i];
      if c < 0x80 {
        return |b|, 0;
      } else if c >= 0xC2 {
        var size := 2;
        if c >= 0xF0 {
          if c > 0xF4 {
            return |b|, 0;
          }
          size := 4;
        } else if c >= 0xE0 {
          size := 3;
        }
        if i < size {
          return |b| - i, i;
        }
        return |b|, 0;
      }
      i := i + 1;
    }
    return |b|, 0;
  }

  /** The last `h` bytes could start a longer character: a leading byte that asks for more than `h` bytes, and behind it
      none that could lead one or stand alone. */
  predicate Started(b: Bytes, h: nat) {
    && 1 <= h <= 3 && h <= |b|
    && (forall i :: |b| - h < i < |b| ==> 0x80 <= b[i] < 0xC2)
    && ((0xC2 <= b[|b| - h] <= 0xDF && h < 2) || (0xE0 <= b[|b| - h] <= 0xEF && h < 3) || 0xF0 <= b[|b| - h] <= 0xF4)
  }

  /** Of any bytes, valid text or not, what is held is exactly the started character at the end, if there is one. */
  lemma HoldIff(b: Bytes, h: nat)
    ensures Hold(b) == h && h > 0 <==> Started(b, h)
  {
    var n := |b|;
    assert Scan(b, 4) == 0;
    if Started(b, h) {
      assert h >= 2 ==> 0x80 <= b[n - 1] < 0xC2;
      assert h >= 3 ==> 0x80 <= b[n - 2] < 0xC2;
      assert Scan(b, h) == h;
      assert h >= 2 ==> Scan(b, h - 1) == h;
      assert h >= 3 ==> Scan(b, 1) == Scan(b, 2);
    } else if Hold(b) == h && h > 0 {
      Backwards(b, 1, h);
    }
  }

  /** The scan comes to the byte it stops at over bytes that lead nothing. */
  lemma {:induction false} Backwards(b: Bytes, i: nat, h: nat)
    requires i >= 1 && Scan(b, i) == h && h > 0
    ensures i <= h <= 3 && h <= |b| && CharSize(b[|b| - h]) > h
    ensures forall j :: |b| - h < j <= |b| - i ==> 0x80 <= b[j] < 0xC2
    decreases 4 - i
  {
    if 0x80 <= b[|b| - i] < 0xC2 {
      Backwards(b, i + 1, h);
    }
  }

  // ---- The output writer of runTerminal

  // The held-back tail `carry` is a Go slice: a length inside a backing array that `append` reuses when the
  // result fits. The writer is modelled with that sharing.

  /** `cap` is the size of carry's backing array. */
  datatype Out = Out(carry: Bytes, cap: nat, frames: seq<Bytes>)

  /** append(carry, p...) fits the array carry already has. */
  predicate Shares(carry: Bytes, cap: nat, p: Bytes) { |carry| > 0 && |carry| + |p| <= cap }

  /** The bytes sent: the front of carry+p, but if the array is shared, the tail has been copied over its
      beginning first. */
  function Sent(carry: Bytes, cap: nat, p: Bytes): Bytes {
    var b := carry + p;
    var h := Hold(b);
    if Shares(carry, cap, p) then (b[|b| - h..] + b[h..])[..|b| - h] else b[..|b| - h]
  }

  function Step(o: Out, p: Bytes, spare: nat): Out {
    var b := o.carry + p;
    var h := Hold(b);
    Out(b[|b| - h..], if h <= o.cap then o.cap else h + spare,
        if h == |b| then o.frames else o.frames + [Sent(o.carry, o.cap, p)])
  }

  class Writer {
    var store: array<Byte>
    var len: nat
    var frames: seq<Bytes>

    ghost predicate Valid()
      reads this
    {
      len <= store.Length
    }

    ghost function View(): Out
      requires Valid()
      reads this, store
    {
      Out(store[..len], store.Length, frames)
    }

    constructor ()
      ensures Valid() && View() == Out([], 0, [])
    {
      store := new Byte[0];
      len, frames := 0, [];
    }

    /** append(carry, p...), or `p` itself when nothing is held. `spare` is how much larger than needed the
        runtime makes a new array. */
    method Append(p: Bytes, spare: nat) returns (buf: array<Byte>, total: nat)
      requires Valid()
      modifies store
      ensures total <= buf.Length && buf[..total] == old(store[..len]) + p
      ensures Shares(old(store[..len]), store.Length, p) <==> buf == store
      ensures buf != store ==> fresh(buf)
    {
      ghost var b := store[..len] + p;
      buf, total := new Byte[|p|](i requires 0 <= i < |p| => p[i]), |p|;
      if len > 0 {
        total := len + |p|;
        if total <= store.Length {
          forall i | 0 <= i < |p| {
            store[len + i] := p[i];
          }
          buf := store;
        } else {
          buf := new Byte[total + spare](_ => 0);
          forall i | 0 <= i < total {
            buf[i] := if i < len then store[i] else p[i - len];
          }
        }
      }
      assert buf[..total] == b;
    }

    /** append(carry[:0], buf[n:]...): the copy is a memmove, onto `buf` itself when the array is shared. */
    method Keep(buf: array<Byte>, n: nat, hold: nat, spare: nat)
      requires n + hold <= buf.Length && (buf == store ==> n + hold <= store.Length)
      modifies this`store, this`len, store
      ensures len == hold && Valid() && store.Length == if hold <= old(store.Length) then old(store.Length)
                else hold + spare
      ensures store[..len] == old(buf[n..n + hold])
      ensures buf[..] == if buf == old(store) then old(buf[n..n + hold] + buf[hold..]) else old(buf[..])
    {
      ghost var tail := buf[n..n + hold];
      if hold > store.Length {
        store := new Byte[hold + spare](_ => 0);
      }
      forall i | 0 <= i < hold {
        store[i] := buf[n + i];
      }
      len := hold;
      assert forall i :: 0 <= i < hold ==> store[i] == tail[i];
      assert store[..len] == tail;
    }

    method Write(p: Bytes, spare: nat)
      requires Valid()
      modifies this, store
      ensures Valid() && View() == Step(old(View()), p, spare)
    {
      hide Hold, Shares, Sent, Step;
      ghost var was := View();
      var buf, total := Append(p, spare);
      ghost var all := buf[..];
      assert all[..total] == buf[..total] == was.carry + p;
      var n, hold := SplitUTF8(buf[..total]);
      StepIs(was, p, spare, all, total, n);
      assert buf[n..n + hold] == all[n..n + hold] && buf[hold..] == all[hold..];
      Keep(buf, n, hold, spare);
      assert store[..len] == all[n..n + hold];
      if n == 0 {
        return;
      }
      assert buf[..n] == buf[..][..n];
      frames := frames + [buf[..n]];
    }
  }

  /** A step, in terms of the array the bytes stand in. */
  lemma StepIs(o: Out, p: Bytes, spare: nat, all: Bytes, total: nat, n: nat)
    requires total <= |all| && all[..total] == o.carry + p && n == total - Hold(o.carry + p)
    ensures var h := Hold(o.carry + p);
            var after := if Shares(o.carry, o.cap, p) then all[n..n + h] + all[h..] else all;
            n <= |after|
            && Step(o, p, spare)
               == Out(all[n..n + h], if h <= o.cap then o.cap else h + spare,
                      if n == 0 then o.frames else o.frames + [after[..n]])
  {
    hide Hold, Shares;
    Overwritten(all, total, n, Hold(o.carry + p));
  }

  lemma Overwritten(all: Bytes, total: nat, n: nat, hold: nat)
    requires n + hold == total <= |all|
    ensures var b := all[..total];
            && all[n..n + hold] == b[n..]
            && all[..n] == b[..n]
            && (all[n..n + hold] + all[hold..])[..n] == (b[n..] + b[hold..])[..n]
  {
  }

  // ---- What arrives at the browser

  function Flat(chunks: seq<Bytes>): Bytes {
    if |chunks| == 0 then [] else Flat(chunks[..|chunks| - 1]) + chunks[|chunks| - 1]
  }

  /** The writer after a list of chunks; `spare` gives the runtime's choice at each. */
  function Run(chunks: seq<Bytes>, spare: nat -> nat): Out {
    if |chunks| == 0 then Out([], 0, [])
    else
      var n := |chunks| - 1;
      Step(Run(chunks[..n], spare), chunks[n], spare(n))
  }

  /** A write whose copied tail spoils the front of the frame: the array is shared, and the tail differs
      from the bytes it lands on before they are sent. */
  predicate Clobbers(carry: Bytes, cap: nat, p: Bytes) {
    var b := carry + p;
    var h := Hold(b);
    Shares(carry, cap, p) && exists i :: 0 <= i < h && i < |b| - h && b[|b| - h + i] != b[i]
  }

  lemma SentIntactIff(carry: Bytes, cap: nat, p: Bytes)
    ensures var b := carry + p;
            |Sent(carry, cap, p)| == |b| - Hold(b)
                && (Sent(carry, cap, p) == b[..|b| - Hold(b)] <==> !Clobbers(carry, cap, p))
  {
    hide Scan, Hold;
    var b := carry + p;
    ShiftedEqualIff(b, Hold(b));
  }

  lemma ShiftedEqualIff(b: Bytes, h: nat)
    requires h <= |b|
    ensures var n := |b| - h;
            |(b[n..] + b[h..])[..n]| == n
            && ((b[n..] + b[h..])[..n] == b[..n] <==> forall i :: 0 <= i < h && i < n ==> b[n + i] == b[i])
  {
    var n := |b| - h;
    var s := (b[n..] + b[h..])[..n];
    assert forall i :: 0 <= i < n ==> s[i] == if i < h then b[n + i] else b[i];
    if s == b[..n] {
      forall i | 0 <= i < h && i < n ensures b[n + i] == b[i] {
        assert s[i] == b[..n][i];
      }
    }
  }

  /** No write of `chunks` clobbers. */
  predicate Clean(chunks: seq<Bytes>, spare: nat -> nat) {
    |chunks| > 0 ==>
      var o := Run(chunks[..|chunks| - 1], spare);
      Clean(chunks[..|chunks| - 1], spare) && !Clobbers(o.carry, o.cap, chunks[|chunks| - 1])
  }

  lemma FlatAppend(frames: seq<Bytes>, f: Bytes)
    ensures Flat(frames + [f]) == Flat(frames) + f
  {
    assert (frames + [f])[..|frames|] == frames;
  }

  /** For any chunking, frames and carry have as many bytes as arrived, the carry is the true tail and at
      most 3 bytes; and the frames are the true front exactly when no write clobbered. */
  lemma {:induction false} ConservesIffClean(chunks: seq<Bytes>, spare: nat -> nat)
    ensures var o := Run(chunks, spare);
            var all := Flat(chunks);
            && |o.carry| <= 3
            && |Flat(o.frames)| + |o.carry| == |all|
            && o.carry == all[|all| - |o.carry|..]
            && (Flat(o.frames) + o.carry == all <==> Clean(chunks, spare))
  {
    hide Step, Clobbers, Hold;
    if |chunks| > 0 {
      var rest, p := chunks[..|chunks| - 1], chunks[|chunks| - 1];
      ConservesIffClean(rest, spare);
      StepConserves(Run(rest, spare), p, spare(|rest|), Flat(rest));
    }
  }

  /** A write sends one frame, or none when all there is is held; no frame is empty. */
  lemma {:induction false} FramesAreSent(chunks: seq<Bytes>, spare: nat -> nat)
    ensures forall f :: f in Run(chunks, spare).frames ==> f != []
    ensures |chunks| > 0 ==>
              var o, v := Run(chunks[..|chunks| - 1], spare), Run(chunks, spare);
              var b := o.carry + chunks[|chunks| - 1];
              && o.frames <= v.frames
              && |v.frames| == |o.frames| + (if b == [] || Started(b, |b|) then 0 else 1)
  {
    hide Hold, Shares, Scan;
    if |chunks| > 0 {
      var rest, p := chunks[..|chunks| - 1], chunks[|chunks| - 1];
      FramesAreSent(rest, spare);
      var o := Run(rest, spare);
      HoldIff(o.carry + p, |o.carry + p|);
      SentIntactIff(o.carry, o.cap, p);
    }
  }

  lemma StepConserves(o: Out, p: Bytes, spare: nat, all: Bytes)
    requires |Flat(o.frames)| + |o.carry| == |all| && o.carry == all[|all| - |o.carry|..]
    ensures var v := Step(o, p, spare);
            && |v.carry| <= 3
            && |Flat(v.frames)| + |v.carry| == |all + p|
            && v.carry == (all + p)[|all + p| - |v.carry|..]
            && (Flat(v.frames) + v.carry == all + p <==>
                Flat(o.frames) + o.carry == all && !Clobbers(o.carry, o.cap, p))
  {
    hide Scan, Clobbers, Sent;
    var b := o.carry + p;
    var h := Hold(b);
    var f := Sent(o.carry, o.cap, p);
    var v := Step(o, p, spare);
    var e := Flat(o.frames);
    SentIntactIff(o.carry, o.cap, p);
    FlatAppend(o.frames, f);
    if h == |b| {
      assert f == [] && e + f == e;
    }
    var x, y, z := all[..|e|], b[..|b| - h], b[|b| - h..];
    assert all == x + o.carry;
    assert b == y + z;
    assert x + o.carry + p == x + b;
    Cancel(e, [], x, [], o.carry);
    Cancel(e, f, x, y, z);
    assert e + [] == e && x + [] == x;
  }

  lemma Cancel(e: Bytes, f: Bytes, x: Bytes, y: Bytes, z: Bytes)
    requires |e| == |x| && |f| == |y|
    ensures e + f + z == x + y + z <==> e == x && f == y
    ensures x + (y + z) == x + y + z && (x + y + z)[|x + y|..] == z
  {
    var l, r := e + f + z, x + y + z;
    assert l[..|e|] == e && r[..|x|] == x;
    assert l[|e|..|e| + |f|] == f && r[|x|..|x| + |y|] == y;
  }

  /** A two-byte tail of one character, then the rest of it with the start of another, is spoiled: the third
      byte of the array still has room, so the new tail overwrites the front before it is sent. */
  lemma ClobberedCharacter(spare: nat -> nat)
    requires spare(0) >= 2
    ensures var o := Run([[0xE2, 0x82], [0xAC, 0xC3]], spare);
            o.frames == [[0xC3, 0x82, 0xAC]] && o.carry == [0xC3]
  {
    var chunks: seq<Bytes> := [[0xE2, 0x82], [0xAC, 0xC3]];
    hide Run, Step;
    RunTwo(chunks, spare);
    assert Step(Out([], 0, []), [0xE2, 0x82], spare(0)) == Out([0xE2, 0x82], 2 + spare(0), [])
        by { FirstChunkHeld(spare(0)); }
    SecondChunkClobbers(2 + spare(0), spare(1));
  }

  lemma FirstChunkHeld(spare: nat)
    ensures Step(Out([], 0, []), [0xE2, 0x82], spare) == Out([0xE2, 0x82], 2 + spare, [])
  {
    var b: Bytes := [0xE2, 0x82];
    assert [] + b == b && Hold(b) == 2;
  }

  lemma SecondChunkClobbers(cap: nat, spare: nat)
    requires cap >= 4
    ensures Step(Out([0xE2, 0x82], cap, []), [0xAC, 0xC3], spare) == Out([0xC3], cap, [[0xC3, 0x82, 0xAC]])
  {
    var b: Bytes := [0xE2, 0x82] + [0xAC, 0xC3];
    assert b == [0xE2, 0x82, 0xAC, 0xC3] && Hold(b) == 1;
    assert b[3..] == [0xC3];
    assert b[3..] + b[1..] == [0xC3, 0x82, 0xAC, 0xC3];
    assert (b[3..] + b[1..])[..3] == [0xC3, 0x82, 0xAC];
    assert Shares([0xE2, 0x82], cap, [0xAC, 0xC3]);
    assert Sent([0xE2, 0x82], cap, [0xAC, 0xC3]) == [0xC3, 0x82, 0xAC];
  }

  lemma RunTwo(chunks: seq<Bytes>, spare: nat -> nat)
    requires |chunks| == 2
    ensures Run(chunks, spare) == Step(Step(Out([], 0, []), chunks[0], spare(0)), chunks[1], spare(1))
  {
    hide Step;
    assert chunks[..1][..0] == [] && chunks[..1][0] == chunks[0];
    assert Run(chunks[..1], spare) == Step(Out([], 0, []), chunks[0], spare(0));
  }

  /** After a first chunk that is held whole, the second one is sent as it came exactly when it is longer than the room
      behind the first, or the bytes held of it, as far as they reach, are those they overwrite. */
  lemma SecondChunkIff(a: Bytes, p: Bytes, spare: nat -> nat)
    requires a != [] && Started(a, |a|)
    ensures var o := Run([a, p], spare);
            var b, h := a + p, Hold(a + p);
            Flat(o.frames) + o.carry == b
            <==> |p| > spare(0) || forall i :: 0 <= i < h && i < |b| - h ==> b[|b| - h + i] == b[i]
  {
    hide Run, Step, Hold, Flat, Started, Clobbers;
    var o := Out(a, |a| + spare(0), []);
    assert Flat([]) == [] && Run([a, p], spare) == Step(o, p, spare(1)) by {
      RunTwo([a, p], spare);
      FirstIsHeld(a, spare(0));
    }
    assert [] + a == a;
    StepConserves(o, p, spare(1), a);
    ClobbersIff(a, o.cap, p);
  }

  lemma ClobbersIff(carry: Bytes, cap: nat, p: Bytes)
    ensures var b, h := carry + p, Hold(carry + p);
            !Clobbers(carry, cap, p) <==>
              |carry| == 0 || |carry| + |p| > cap
              || forall i :: 0 <= i < h && i < |b| - h ==> b[|b| - h + i] == b[i]
  {
    hide Hold;
  }

  lemma FirstIsHeld(a: Bytes, spare: nat)
    requires a != [] && Started(a, |a|)
    ensures Step(Out([], 0, []), a, spare) == Out(a, |a| + spare, [])
    ensures Flat([]) == []
  {
    hide Scan, Started;
    assert [] + a == a;
    HoldIff(a, |a|);
  }

  /** A chunk too long for the carry's array is always safe. */
  lemma LongChunkIsSafe(carry: Bytes, cap: nat, p: Bytes)
    requires |p| >= cap
    ensures !Clobbers(carry, cap, p)
  {
  }

  // ---- Characters, section 4 of RFC 3629

  predicate Tail(c: Byte) { 0x80 <= c <= 0xBF }

  predicate IsChar(b: Bytes) {
    match |b|
    case 1 => b[0] < 0x80
    case 2 => 0xC2 <= b[0] <= 0xDF && Tail(b[1])
    case 3 =>
      && Tail(b[1]) && Tail(b[2])
      && ((b[0] == 0xE0 && 0xA0 <= b[1]) || 0xE1 <= b[0] <= 0xEC || (b[0] == 0xED && b[1] <= 0x9F)
         || 0xEE <= b[0] <= 0xEF)
    case 4 =>
      && Tail(b[1]) && Tail(b[2]) && Tail(b[3])
      && ((b[0] == 0xF0 && 0x90 <= b[1]) || 0xF1 <= b[0] <= 0xF3 || (b[0] == 0xF4 && b[1] <= 0x8F))
    case _ => false
  }

  ghost predicate Chars(cs: seq<Bytes>) { forall c :: c in cs ==> IsChar(c) }

  ghost predicate ValidUTF8(b: Bytes) { exists cs :: Chars(cs) && Flat(cs) == b }

  /** A proper prefix of one character, possibly empty. */
  ghost predicate Partial(b: Bytes) { b == [] || exists c :: IsChar(c) && b < c }

  lemma HoldAfterChar(v: Bytes, c: Bytes)
    requires IsChar(c)
    ensures Hold(v + c) == 0
  {
    var b := v + c;
    assert b[|b| - 1] == c[|c| - 1];
    assert |c| >= 2 ==> b[|b| - 2] == c[|c| - 2];
    assert |c| >= 3 ==> b[|b| - 3] == c[|c| - 3];
  }

  lemma HoldPartial(v: Bytes, c: Bytes, h: nat)
    requires IsChar(c) && 0 < h < |c|
    ensures Hold(v + c[..h]) == h
  {
    var b := v + c[..h];
    assert b[|b| - 1] == c[h - 1];
    assert h >= 2 ==> b[|b| - 2] == c[h - 2];
    assert h >= 3 ==> b[|b| - 3] == c[h - 3];
    assert CharSize(c[0]) == |c|;
  }

  /** A prefix of valid text splits into whole characters and the start of the next one, and that start is
      exactly what is held back. */
  lemma {:induction false} HoldsPartOfChar(b: Bytes, cs: seq<Bytes>) returns (k: nat)
    requires Chars(cs) && b <= Flat(cs)
    ensures k <= |cs| && Flat(cs[..k]) == b[..|b| - Hold(b)]
    ensures Hold(b) > 0 ==> k < |cs| && b[|b| - Hold(b)..] < cs[k]
    decreases |cs|
  {
    if b == Flat(cs) {
      k := |cs|;
      assert cs[..k] == cs;
      if |cs| > 0 {
        HoldAfterChar(Flat(cs[..|cs| - 1]), cs[|cs| - 1]);
      }
      assert Hold(b) == 0;
    } else {
      var n := |cs| - 1;
      var front := Flat(cs[..n]);
      if b <= front {
        k := HoldsPartOfChar(b, cs[..n]);
        assert cs[..n][..k] == cs[..k];
      } else {
        k := n;
        var h := |b| - |front|;
        assert b == front + cs[n][..h];
        assert h == 0 ==> b == front;
        HoldPartial(front, cs[n], h);
      }
    }
  }

  lemma {:induction false} FlatConcat(a: seq<Bytes>, b: seq<Bytes>)
    ensures Flat(a + b) == Flat(a) + Flat(b)
    decreases |b|
  {
    if |b| == 0 {
      assert a + b == a;
    } else {
      var front, last := b[..|b| - 1], b[|b| - 1];
      FlatConcat(a, front);
      FlatAppend(a + front, last);
      assert a + front + [last] == a + b;
    }
  }

  /** One more chunk of valid text: the new frame is whole characters, from where the last one ended. */
  lemma NextFrameIsText(emitted: Bytes, b: Bytes, cs: seq<Bytes>, k: nat) returns (m: nat)
    requires Chars(cs) && k <= |cs| && emitted == Flat(cs[..k]) && emitted + b <= Flat(cs)
    ensures k <= m <= |cs| && Flat(cs[..m]) == emitted + b[..|b| - Hold(b)]
    ensures ValidUTF8(b[..|b| - Hold(b)]) && Partial(b[|b| - Hold(b)..])
  {
    hide Scan, IsChar;
    assert cs == cs[..k] + cs[k..];
    FlatConcat(cs[..k], cs[k..]);
    assert b <= Flat(cs[k..]) by {
      assert (emitted + b)[|emitted|..] == b;
      assert Flat(cs)[|emitted|..] == Flat(cs[k..]);
    }
    var j := HoldsPartOfChar(b, cs[k..]);
    m := k + j;
    assert cs[..m] == cs[..k] + cs[k..][..j];
    FlatConcat(cs[..k], cs[k..][..j]);
    assert Chars(cs[k..][..j]);
    if Hold(b) > 0 {
      assert cs[k..][j] in cs;
    }
  }

  /** When the bytes are the front of valid UTF-8, however they are cut into chunks, and no write clobbers,
      every frame is valid UTF-8 on its own, the frames are a whole number of characters, and the carry
      is a proper prefix of the next one. */
  lemma {:induction false} FramesAreText(chunks: seq<Bytes>, spare: nat -> nat, cs: seq<Bytes>) returns (k: nat)
    requires Chars(cs) && Flat(chunks) <= Flat(cs) && Clean(chunks, spare)
    ensures var o := Run(chunks, spare);
            && k <= |cs| && Flat(o.frames) == Flat(cs[..k])
            && (forall f :: f in o.frames ==> ValidUTF8(f))
            && Partial(o.carry)
  {
    hide Scan, Clobbers, Chars, Partial, ValidUTF8, Sent;
    if |chunks| == 0 {
      k := 0;
      assert Partial([]) by { EmptyPartial(); }
    } else {
      var rest, p := chunks[..|chunks| - 1], chunks[|chunks| - 1];
      assert Flat(chunks) == Flat(rest) + p;
      k := FramesAreText(rest, spare, cs);
      ConservesIffClean(rest, spare);
      k := StepIsText(Run(rest, spare), p, spare(|rest|), cs, k);
    }
  }

  lemma StepIsText(o: Out, p: Bytes, spare: nat, cs: seq<Bytes>, k: nat) returns (m: nat)
    requires Chars(cs) && !Clobbers(o.carry, o.cap, p) && Flat(o.frames) + o.carry + p <= Flat(cs)
    requires k <= |cs| && Flat(o.frames) == Flat(cs[..k]) && forall f :: f in o.frames ==> ValidUTF8(f)
    ensures var v := Step(o, p, spare);
            && m <= |cs| && Flat(v.frames) == Flat(cs[..m])
            && (forall f :: f in v.frames ==> ValidUTF8(f))
            && Partial(v.carry)
  {
    hide Hold, Clobbers, Chars, Partial, ValidUTF8, Sent, Flat;
    var e := Flat(o.frames);
    var b := o.carry + p;
    assert e + b == e + o.carry + p;
    m := NextFrameIsText(e, b, cs, k);
    SentIntactIff(o.carry, o.cap, p);
    FlatAppend(o.frames, Sent(o.carry, o.cap, p));
    if Hold(b) == |b| {
      assert b[..0] == [] && e + [] == e;
    }
  }

  lemma EmptyPartial()
    ensures Partial([])
  {
  }
}
