/** The shape of what TSWriter emits: whole packets of 188 bytes, exactly the
    stream's bytes as payload, however the stream is handed over. */
module TsPackets {
  import opened Bytes
  import opened TsWriter

  // ----- when the stamps have the length the header declares --------------------

  /** The stream's time gives a stamp that is written at all. */
  predicate Stamped(e: EsInfo)
  {
    Dts(e.time) != 0
  }

  /** The 32-bit product vanishes at exactly two times, half the clock apart. */
  lemma StampedExactly(e: EsInfo)
    ensures Stamped(e) <==> (e.time + PCR_OFFSET) % 0x8000_0000 != 0
  {
    var x := (e.time + PCR_OFFSET) % U32;
    assert x % 0x8000_0000 == (e.time + PCR_OFFSET) % 0x8000_0000 by {
      var q := (e.time + PCR_OFFSET) / U32;
      assert e.time + PCR_OFFSET == x + 0x8000_0000 * (2 * q);
    }
    if (x * 90) % U32 == 0 {
      var j := (x * 90) / U32;
      assert x * 45 == j * 0x8000_0000;
      // 45 * 620384165 == 1 + 13 * 2^31
      assert x == 0x8000_0000 * (j * 620384165 - 13 * x);
    }
    if x % 0x8000_0000 == 0 {
      var k := x / 0x8000_0000;
      assert x * 90 == (k * 45) * U32;
    }
  }

  /** A stamped first packet has room for no more than the payload there is. */
  lemma FirstFits(m: Mux, e: EsInfo)
    requires Valid(m) && ValidInfo(e) && e.esSize > 0 && Stamped(e)
    ensures Start(m, e.pid, e.time, e.compositionOffset, e.randomAccess, e.esSize).2 <= e.esSize
  {
    hide Prelude, Valid, First, MaybePmt, StartFill, Dts;
    StampsFull(e.time, e.compositionOffset);
    FillFits(MaybePmt(m, e.time).0, e.pid, e.time, e.compositionOffset, e.esSize);
  }

  lemma FillFits(m: Mux, pid: int, time: UInt32, compositionOffset: UInt16, size: UInt32)
    requires size > 0
    ensures 175 - StampsLength(compositionOffset) - StartFill(m, pid, time, compositionOffset, size) <= size
  {
  }

  lemma StampsFull(time: UInt32, compositionOffset: UInt16)
    requires Dts(time) != 0
    ensures |Stamps(time, compositionOffset)| == StampsLength(compositionOffset)
  {
    hide Dts;
  }

  /** When the stamp vanishes the declared header is five bytes longer than the
      written one, and a short payload leaves its packet unfinished. */
  lemma UnstampedOverruns(m: Mux, e: EsInfo)
    requires Valid(m) && ValidInfo(e) && !Stamped(e)
    requires e.compositionOffset == 0 && 0 < e.esSize <= 160
    ensures Start(m, e.pid, e.time, e.compositionOffset, e.randomAccess, e.esSize).2 == e.esSize + 5
  {
    hide Prelude, Valid, First, MaybePmt;
  }

  // ----- the two counts of bytes to come -----------------------------------------

  predicate Balanced(w: Writer)
  {
    w.canWrite <= w.toWrite
  }

  predicate Ready(w: Writer, e: EsInfo)
  {
    Valid(w.mux) && ValidInfo(e) && e.esSize > 0 && Stamped(e) && Balanced(w)
  }

  lemma PrepareBalanced(w: Writer, e: EsInfo)
    requires Ready(w, e)
    ensures Balanced(Prepare(w, e).0)
    ensures Prepare(w, e).0.toWrite == if w.toWrite == 0 then e.esSize else w.toWrite
  {
    hide Start, Continue, Valid, Stamped;
    if w.toWrite == 0 {
      FirstFits(w.mux, e);
    }
  }

  /** Both counts stay in step through any call, and `payload` comes off the stream's count. */
  lemma {:induction false} EsBalanced(w: Writer, e: EsInfo, payload: seq<byte>)
    requires Ready(w, e)
    requires |payload| <= if w.toWrite == 0 then e.esSize else w.toWrite
    ensures Balanced(Es(w, e, payload).0)
    ensures payload != [] ==>
      Es(w, e, payload).0.toWrite == (if w.toWrite == 0 then e.esSize else w.toWrite) - |payload|
    decreases |payload|
  {
    hide Prepare, Valid, Stamped, Es;
    if payload == [] {
      EsNothing(w, e);
    } else {
      EsUnfold(w, e, payload);
      PrepareBalanced(w, e);
      var w1 := Prepare(w, e).0;
      var n := Min(|payload|, w1.canWrite);
      if payload[n..] == [] {
        EsNothing(Consume(w1, n), e);
      } else {
        EsBalanced(Consume(w1, n), e, payload[n..]);
      }
    }
  }

  /** Two calls do what one call with both payloads does. */
  lemma {:induction false} EsSplit(w: Writer, e: EsInfo, a: seq<byte>, b: seq<byte>)
    requires Ready(w, e)
    ensures Es(w, e, a + b).0 == Es(Es(w, e, a).0, e, b).0
    ensures Es(w, e, a + b).1 == Es(w, e, a).1 + Es(Es(w, e, a).0, e, b).1
    decreases |a|, 1
  {
    hide Prepare, Valid, Stamped, Es;
    if a == [] {
      assert a + b == b;
      EsNothing(w, e);
    } else if b == [] {
      assert a + b == a;
      EsNothing(Es(w, e, a).0, e);
    } else if |a| < Prepare(w, e).0.canWrite {
      EsSplitInside(w, e, a, b);
    } else {
      EsSplitAfter(w, e, a, b);
    }
  }

  lemma {:induction false} EsSplitAfter(w: Writer, e: EsInfo, a: seq<byte>, b: seq<byte>)
    requires Ready(w, e) && a != [] && b != [] && |a| >= Prepare(w, e).0.canWrite
    ensures Es(w, e, a + b).0 == Es(Es(w, e, a).0, e, b).0
    ensures Es(w, e, a + b).1 == Es(w, e, a).1 + Es(Es(w, e, a).0, e, b).1
    decreases |a|, 0
  {
    hide Prepare, Valid, Stamped, Es;
    PrepareBalanced(w, e);
    EsUnfold(w, e, a + b);
    EsUnfold(w, e, a);
    var n := Prepare(w, e).0.canWrite;
    var w2 := Consume(Prepare(w, e).0, n);
    assert (a + b)[..n] == a[..n] && (a + b)[n..] == a[n..] + b;
    EsSplit(w2, e, a[n..], b);
    Associative(Prepare(w, e).1 + a[..n], Es(w2, e, a[n..]).1, Es(Es(w2, e, a[n..]).0, e, b).1);
  }

  /** The first payload ends inside a packet: the second call goes on filling it. */
  lemma EsSplitInside(w: Writer, e: EsInfo, a: seq<byte>, b: seq<byte>)
    requires Ready(w, e) && a != [] && b != [] && |a| < Prepare(w, e).0.canWrite
    ensures Es(w, e, a + b).0 == Es(Es(w, e, a).0, e, b).0
    ensures Es(w, e, a + b).1 == Es(w, e, a).1 + Es(Es(w, e, a).0, e, b).1
  {
    hide Valid, Stamped, Start, Continue, Es;
    var w1, head := Prepare(w, e).0, Prepare(w, e).1;
    PrepareBalanced(w, e);
    EsUnfold(w, e, a + b);
    EsUnfold(w, e, a);
    var w2 := Consume(w1, |a|);
    assert a[..|a|] == a && a[|a|..] == [];
    EsNothing(w2, e);
    assert Es(w, e, a).1 == head + a;
    assert Prepare(w2, e) == (w2, []);
    EsUnfold(w2, e, b);
    var n := Min(|b|, w2.canWrite);
    assert (a + b)[..|a| + n] == a + b[..n] && (a + b)[|a| + n..] == b[n..];
    assert Consume(w2, n) == Consume(w1, |a| + n);
  }

  // ----- one whole stream, as packets ----------------------------------------------

  type Packet188 = s: seq<byte> | |s| == 188 && s[0] == 0x47 witness [0x47] + Fill(187, 0)

  function Flat(ps: seq<Packet188>): (s: seq<byte>)
    ensures |s| == 188 * |ps|
  {
    if ps == [] then [] else ps[0] + Flat(ps[1..])
  }

  lemma {:induction false} FlatAppend(a: seq<Packet188>, b: seq<Packet188>)
    ensures Flat(a + b) == Flat(a) + Flat(b)
  {
    if a == [] {
      assert a + b == b;
    } else {
      assert (a + b)[1..] == a[1..] + b;
      FlatAppend(a[1..], b);
    }
  }

  /** The packets after the first, when `p` is what remains of the stream. */
  function TailPackets(m: Mux, e: EsInfo, p: seq<byte>): (r: (Mux, seq<Packet188>))
    requires Valid(m) && ValidInfo(e) && |p| < U32
    ensures Valid(r.0)
    decreases |p|
  {
    if p == [] then (m, [])
    else
      var (m1, head, n) := Continue(m, e.pid, e.time, e.randomAccess, |p|);
      var rest := TailPackets(m1, e, p[n..]);
      (rest.0, [head + p[..n]] + rest.1)
  }

  lemma {:induction false} TailIsPackets(w: Writer, e: EsInfo, p: seq<byte>)
    requires Valid(w.mux) && ValidInfo(e) && e.esSize > 0 && w.canWrite == 0 && w.toWrite == |p|
    ensures Es(w, e, p).1 == Flat(TailPackets(w.mux, e, p).1)
    ensures Es(w, e, p).0 == Writer(TailPackets(w.mux, e, p).0, 0, 0)
    decreases |p|
  {
    hide Valid, Stamped, Es, Continue;
    if p == [] {
      EsNothing(w, e);
    } else {
      EsUnfold(w, e, p);
      var (m1, head, n) := Continue(w.mux, e.pid, e.time, e.randomAccess, |p|);
      var w2 := Writer(m1, 0, |p| - n);
      assert Consume(Prepare(w, e).0, n) == w2;
      TailIsPackets(w2, e, p[n..]);
      FlatCons(head + p[..n], TailPackets(m1, e, p[n..]).1);
    }
  }

  lemma FlatCons(p: Packet188, ps: seq<Packet188>)
    ensures Flat([p] + ps) == p + Flat(ps)
  {
    assert ([p] + ps)[1..] == ps;
  }

  function TablePackets(m: Mux): (r: seq<Packet188>)
    requires Valid(m)
  {
    var m1 := WithVersion(m);
    [PatPacket(Counter(m1, 0)), PmtPacket(Counter(Count(m1, 0), PMT_PID), m1.version, Streams(m.videos, m.audios))]
  }

  function MaybeTables(m: Mux, time: UInt32): (r: seq<Packet188>)
    requires Valid(m)
  {
    if PmtDue(m, time) then TablePackets(m) else []
  }

  function MaybeClock(m: Mux, e: EsInfo): (r: seq<Packet188>)
    requires Valid(m) && e.esSize > 0
  {
    if ClockUrgent(m, e.pid, e.time, e.compositionOffset, e.esSize) then [ClockPacket(m, e.time).1] else []
  }

  lemma PreludeIsPackets(m: Mux, e: EsInfo)
    requires Valid(m) && e.esSize > 0
    ensures Prelude(m, e.pid, e.time, e.compositionOffset, e.esSize).1
      == Flat(MaybeTables(m, e.time)) + Flat(MaybeClock(MaybePmt(m, e.time).0, e))
  {
    hide Valid, ClockUrgent, PatPacket, PmtPacket, ClockPacket, Streams, Counter, Count, WithVersion;
    if PmtDue(m, e.time) {
      var ps := TablePackets(m);
      assert ps == [ps[0]] + [ps[1]];
      FlatCons(ps[0], [ps[1]]);
      FlatCons(ps[1], []);
      assert Flat(ps) == Tables(m, e.time).1;
    }
    var m1 := MaybePmt(m, e.time).0;
    if ClockUrgent(m1, e.pid, e.time, e.compositionOffset, e.esSize) {
      FlatCons(ClockPacket(m1, e.time).1, []);
    }
  }

  /** The first packet with its share of the payload, and the state after it. */
  function FirstPacket(m: Mux, e: EsInfo, p: seq<byte>): (r: (Mux, Packet188, byte))
    requires Valid(m) && ValidInfo(e) && Stamped(e) && |p| == e.esSize > 0
    ensures Valid(r.0) && 0 < r.2 <= |p|
  {
    var prelude := Prelude(m, e.pid, e.time, e.compositionOffset, e.esSize);
    var fill := StartFill(MaybePmt(m, e.time).0, e.pid, e.time, e.compositionOffset, e.esSize);
    var first := First(prelude.0, fill, e.pid, e.time, e.compositionOffset, e.randomAccess, e.esSize);
    FirstFits(m, e);
    (first.0, first.1 + p[..first.2], first.2)
  }

  /** All packets of one stream, from an idle writer. */
  function FramePackets(m: Mux, e: EsInfo, p: seq<byte>): (r: (Mux, seq<Packet188>))
    requires Valid(m) && ValidInfo(e) && Stamped(e) && |p| == e.esSize > 0
    ensures Valid(r.0)
  {
    var first := FirstPacket(m, e, p);
    var tail := TailPackets(first.0, e, p[first.2..]);
    (tail.0, MaybeTables(m, e.time) + MaybeClock(MaybePmt(m, e.time).0, e) + [first.1] + tail.1)
  }

  /** What comes first of a stream: the program after it, the header, and the room behind. */
  function Opening(m: Mux, e: EsInfo): (r: (Mux, seq<byte>, byte))
    requires Valid(m) && ValidInfo(e) && e.esSize > 0
    ensures |r.1| + r.2 == 188 && 13 <= |r.1| && r.1[0] == 0x47 && r.2 > 0
  {
    var prelude := Prelude(m, e.pid, e.time, e.compositionOffset, e.esSize);
    var fill := StartFill(MaybePmt(m, e.time).0, e.pid, e.time, e.compositionOffset, e.esSize);
    First(prelude.0, fill, e.pid, e.time, e.compositionOffset, e.randomAccess, e.esSize)
  }

  lemma OpeningIs(m: Mux, e: EsInfo)
    requires Valid(m) && ValidInfo(e) && e.esSize > 0
    ensures var first := Opening(m, e);
      Start(m, e.pid, e.time, e.compositionOffset, e.randomAccess, e.esSize)
      == (first.0, Prelude(m, e.pid, e.time, e.compositionOffset, e.esSize).1 + first.1, first.2)
    ensures Valid(Opening(m, e).0)
  {
    hide Valid, Prelude, First, MaybePmt, StartFill;
  }

  /** A packet with its share of `p`, and stuffing where `p` is too short for it. */
  function Stuffed(head: seq<byte>, room: byte, p: seq<byte>): Packet188
    requires |head| + room == 188 && head != [] && head[0] == 0x47
  {
    var n := Min(|p|, room);
    head + (p[..n] + Fill(room - n, 0xFF))
  }

  function UnstampedFirst(m: Mux, e: EsInfo, p: seq<byte>): (r: (Mux, Packet188, byte))
    requires Valid(m) && ValidInfo(e) && e.esSize > 0
    ensures Valid(r.0) && r.2 <= |p|
  {
    var first := Opening(m, e);
    OpeningIs(m, e);
    (first.0, Stuffed(first.1, first.2, p), Min(|p|, first.2))
  }

  /** All packets of a stream without its stamp. One too short for its first packet leaves
      it unfinished; the stuffing that completes it comes with the next stream. */
  function UnstampedFrame(m: Mux, e: EsInfo, p: seq<byte>): (r: (Mux, seq<Packet188>))
    requires Valid(m) && ValidInfo(e) && |p| == e.esSize > 0
    ensures Valid(r.0)
  {
    var first := UnstampedFirst(m, e, p);
    var tail := TailPackets(first.0, e, p[first.2..]);
    (tail.0, MaybeTables(m, e.time) + MaybeClock(MaybePmt(m, e.time).0, e) + [first.1] + tail.1)
  }

  /** A whole stream, written from an idle writer in one call, is whole packets,
      and leaves the writer idle. */
  lemma EsIsPackets(m: Mux, e: EsInfo, p: seq<byte>)
    requires Valid(m) && ValidInfo(e) && Stamped(e) && |p| == e.esSize > 0
    ensures Es(Writer(m, 0, 0), e, p).0 == Writer(FramePackets(m, e, p).0, 0, 0)
    ensures Es(Writer(m, 0, 0), e, p).1 == Flat(FramePackets(m, e, p).1)
  {
    hide Valid, Stamped, Es, FirstPacket, TailPackets, MaybePmt, MaybeTables, MaybeClock;
    EsFirstPacket(m, e, p);
    var first := FirstPacket(m, e, p);
    var rest := p[first.2..];
    TailIsPackets(Writer(first.0, 0, |rest|), e, rest);
    FlatFrame(MaybeTables(m, e.time), MaybeClock(MaybePmt(m, e.time).0, e), first.1, TailPackets(first.0, e, rest).1);
  }

  lemma FlatFrame(tables: seq<Packet188>, clock: seq<Packet188>, first: Packet188, tail: seq<Packet188>)
    ensures Flat(tables + clock + [first] + tail) == Flat(tables) + Flat(clock) + first + Flat(tail)
  {
    FlatAppend(tables + clock + [first], tail);
    FlatAppend(tables + clock, [first]);
    FlatAppend(tables, clock);
    FlatCons(first, []);
    assert [first] + [] == [first];
  }

  lemma EsFirstPacket(m: Mux, e: EsInfo, p: seq<byte>)
    requires Valid(m) && ValidInfo(e) && Stamped(e) && |p| == e.esSize > 0
    ensures var first := FirstPacket(m, e, p);
      var rest := Es(Writer(first.0, 0, |p| - first.2), e, p[first.2..]);
      Es(Writer(m, 0, 0), e, p) == (rest.0,
        Flat(MaybeTables(m, e.time)) + Flat(MaybeClock(MaybePmt(m, e.time).0, e)) + first.1 + rest.1)
  {
    hide Valid, Stamped, Es, Prepare, FirstPacket, MaybePmt, MaybeTables, MaybeClock;
    EsUnfold(Writer(m, 0, 0), e, p);
    PrepareFirst(m, e, p);
  }

  lemma PrepareFirst(m: Mux, e: EsInfo, p: seq<byte>)
    requires Valid(m) && ValidInfo(e) && Stamped(e) && |p| == e.esSize > 0
    ensures var first := FirstPacket(m, e, p);
      var next := Prepare(Writer(m, 0, 0), e);
      next.0 == Writer(first.0, first.2, |p|)
      && next.1 + p[..first.2] == Flat(MaybeTables(m, e.time)) + Flat(MaybeClock(MaybePmt(m, e.time).0, e)) + first.1
  {
    hide Valid, Stamped, Prelude, First, StartFill, MaybePmt, MaybeTables, MaybeClock, Flat;
    PreludeIsPackets(m, e);
    assert Fill(0, 0xFF) == [];
    var first := FirstPacket(m, e, p);
    var prelude := Prelude(m, e.pid, e.time, e.compositionOffset, e.esSize);
    var fill := StartFill(MaybePmt(m, e.time).0, e.pid, e.time, e.compositionOffset, e.esSize);
    var head := First(prelude.0, fill, e.pid, e.time, e.compositionOffset, e.randomAccess, e.esSize).1;
    assert [] + (prelude.1 + head) == prelude.1 + head;
    Associative(prelude.1, head, p[..first.2]);
  }

  // ----- any cutting into calls -------------------------------------------------------

  /** One writeES call per chunk. */
  function EsCalls(w: Writer, e: EsInfo, chunks: seq<seq<byte>>): (r: (Writer, seq<byte>))
    requires Valid(w.mux) && ValidInfo(e) && e.esSize > 0
    ensures Valid(r.0.mux)
    decreases |chunks|
  {
    if chunks == [] then (w, [])
    else
      var first := Es(w, e, chunks[0]);
      var others := EsCalls(first.0, e, chunks[1..]);
      (others.0, first.1 + others.1)
  }

  lemma {:induction false} EsCallsJoin(w: Writer, e: EsInfo, chunks: seq<seq<byte>>)
    requires Ready(w, e)
    requires |Concat(chunks)| <= if w.toWrite == 0 then e.esSize else w.toWrite
    ensures EsCalls(w, e, chunks).0 == Es(w, e, Concat(chunks)).0
    ensures EsCalls(w, e, chunks).1 == Es(w, e, Concat(chunks)).1
    decreases |chunks|
  {
    hide Valid, Stamped, Es;
    if chunks == [] {
      EsNothing(w, e);
    } else {
      var rest := Concat(chunks[1..]);
      EsSplit(w, e, chunks[0], rest);
      EsBalanced(w, e, chunks[0]);
      if chunks[0] == [] {
        EsNothing(w, e);
      }
      if rest == [] {
        EmptyCalls(Es(w, e, chunks[0]).0, e, chunks[1..]);
        EsNothing(Es(w, e, chunks[0]).0, e);
      } else {
        EsCallsJoin(Es(w, e, chunks[0]).0, e, chunks[1..]);
      }
    }
  }

  lemma {:induction false} EmptyCalls(w: Writer, e: EsInfo, chunks: seq<seq<byte>>)
    requires Valid(w.mux) && ValidInfo(e) && e.esSize > 0
    requires Concat(chunks) == []
    ensures EsCalls(w, e, chunks) == (w, [])
    decreases |chunks|
  {
    hide Valid, Es;
    if chunks != [] {
      assert chunks[0] == [] && Concat(chunks[1..]) == [] by {
        assert |chunks[0] + Concat(chunks[1..])| == 0;
      }
      EsNothing(w, e);
      EmptyCalls(w, e, chunks[1..]);
    }
  }

  /** Packetisation is exact: a stream handed over in any pieces that add up to its
      declared size comes out as the packets of the whole, and both counts end at 0. */
  lemma PacketisationExact(m: Mux, e: EsInfo, chunks: seq<seq<byte>>)
    requires Valid(m) && ValidInfo(e) && Stamped(e) && |Concat(chunks)| == e.esSize > 0
    ensures EsCalls(Writer(m, 0, 0), e, chunks)
      == (Writer(FramePackets(m, e, Concat(chunks)).0, 0, 0), Flat(FramePackets(m, e, Concat(chunks)).1))
  {
    EsCallsJoin(Writer(m, 0, 0), e, chunks);
    EsIsPackets(m, e, Concat(chunks));
  }
}
