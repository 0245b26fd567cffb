/** The clock references TSWriter sends: which packets carry one, and what it says. */
module TsClock {
  import opened Bytes
  import opened Options
  import opened TsWriter
  import opened TsPackets
  import opened TsRoundTrip
  import opened TsSession
  import opened TsExactly

  /** The clock reference of a packet, in ticks of 27 MHz, as section 2.4.3.4 of ISO/IEC
      13818-1 has it behind the flags of an adaptation field: 33 bits that count 300 of them
      each, six bits, and nine that count the rest. */
  function ClockOf(p: Packet188): Option<nat>
  {
    if p[3] / 0x20 % 2 == 1 && p[4] >= 7 && p[5] / 0x10 % 2 == 1 then
      Some((U32At(p[6..]) * 2 + p[10] / 0x80) * 300 + p[10] as int % 2 * 0x100 + p[11])
    else None
  }

  function PidOf(p: Packet188): int
  {
    p[1] as int % 0x20 * 256 + p[2]
  }

  /** The clock references among packets, in order, with their pid. */
  function Clocks(ps: seq<Packet188>): seq<(int, nat)>
  {
    if ps == [] then []
    else (if ClockOf(ps[0]).Some? then [(PidOf(ps[0]), ClockOf(ps[0]).value)] else []) + Clocks(ps[1..])
  }

  lemma {:induction false} ClocksAppend(a: seq<Packet188>, b: seq<Packet188>)
    ensures Clocks(a + b) == Clocks(a) + Clocks(b)
  {
    if a == [] {
      assert a + b == b;
    } else {
      assert (a + b)[0] == a[0] && (a + b)[1..] == a[1..] + b;
      var first: seq<(int, nat)> := if ClockOf(a[0]).Some? then [(PidOf(a[0]), ClockOf(a[0]).value)] else [];
      assert Clocks(a) == first + Clocks(a[1..]);
      assert Clocks(a + b) == first + Clocks(a[1..] + b);
      hide Clocks, PidOf, ClockOf;
      ClocksAppend(a[1..], b);
      Associative(first, Clocks(a[1..]), Clocks(b));
    }
  }

  // ----- one packet ------------------------------------------------------------------------

  /** What a clock reference says of a time in milliseconds; the product of 90 is taken on
      32 bits. */
  function Ticks(time: UInt32): nat
  {
    time * 90 % U32 * 300
  }

  lemma HeadBytes(start: bool, pid: int, adapted: bool, counter: byte)
    requires 0 <= pid < 512
    ensures var h := Head(start, pid, adapted, counter);
      h[1] as int % 0x20 * 256 + h[2] == pid && (h[3] / 0x20 % 2 == 1) == adapted
  {
  }

  lemma {:induction false} NoClocks()
    ensures Clocks([]) == []
  {
  }

  lemma OneClock(p: Packet188)
    ensures Clocks([p]) == if ClockOf(p).Some? then [(PidOf(p), ClockOf(p).value)] else []
  {
    NoClocks();
    assert [p][1..] == [];
  }

  lemma ClockBytes(time: UInt32, rest: seq<byte>)
    ensures var c := Clock(time) + rest;
      (U32At(c) * 2 + c[4] / 0x80) * 300 + c[4] as int % 2 * 0x100 + c[5] == Ticks(time)
  {
    var pcr := time * 90 % U32;
    var low := Be16((pcr % 2) * 0x8000);
    assert Clock(time) + rest == Be32(pcr / 2) + (low + rest);
    ReadBe32(pcr / 2, low + rest);
    assert (Clock(time) + rest)[4] == low[0] == pcr % 2 * 0x80 && (Clock(time) + rest)[5] == low[1] == 0;
  }

  /** An adaptation field says the time where it has room for it, on the clock's pid, and
      only forward. */
  lemma FieldClock(m: Mux, start: bool, pid: int, time: UInt32, randomAccess: bool, fill: nat, counter: byte, rest: seq<byte>,
                   p: Packet188)
    requires 0 <= pid < 512 && 1 <= fill <= 184
    requires p == Head(start, pid, true, counter) + Adaptation(m, pid, time, randomAccess, fill) + rest
    ensures Clocks([p]) == if fill >= 8 && pid == m.pidPCR && time > m.timePCR then [(pid, Ticks(time))] else []
  {
    hide Head, Clock, Fill;
    OneClock(p);
    HeadBytes(start, pid, true, counter);
    var field := Adaptation(m, pid, time, randomAccess, fill);
    assert p[4] == field[0] && p[1] == Head(start, pid, true, counter)[1];
    if ClockGoes(m, pid, time, fill) {
      assert p[5] == field[1];
      assert p[6..] == Clock(time) + (Fill(fill - 8, 0xFF) + rest);
      ClockBytes(time, Fill(fill - 8, 0xFF) + rest);
      assert p[10] == p[6..][4] && p[11] == p[6..][5];
    } else if fill > 1 {
      assert p[5] == field[1] == 0;
    }
  }

  lemma PlainClock(start: bool, pid: int, counter: byte, rest: seq<byte>, p: Packet188)
    requires 0 <= pid < 512 && p == Head(start, pid, false, counter) + rest
    ensures Clocks([p]) == []
  {
    hide Head;
    OneClock(p);
    HeadBytes(start, pid, false, counter);
    assert p[3] == Head(start, pid, false, counter)[3];
  }

  lemma TablesClock(m: Mux, time: UInt32)
    requires Valid(m)
    ensures Clocks(MaybeTables(m, time)) == []
  {
    hide Crc, Streams, Counter, WithVersion, Count, PmtSection, Fill, Valid;
    NoClocks();
    if PmtDue(m, time) {
      var ps := TablePackets(m);
      assert ps == [ps[0]] + [ps[1]];
      ClocksAppend([ps[0]], [ps[1]]);
      OneClock(ps[0]);
      OneClock(ps[1]);
    }
  }

  // ----- one stream ----------------------------------------------------------------------------

  /** Whether this is the clock's pid, and not behind the last time said. */
  predicate Sayable(m: Mux, e: EsInfo)
  {
    e.pid == m.pidPCR && e.time > m.timePCR
  }

  function Said(m: Mux, e: EsInfo, says: bool): seq<(int, nat)>
  {
    if says then [(m.pidPCR as int, Ticks(e.time))] else []
  }

  /** The clock moves exactly when it is said; nothing else of the program but its
      counters does. */
  predicate Moves(m: Mux, m': Mux, time: UInt32, says: bool)
  {
    && SameProgram(m, m')
    && (m'.timePCR, m'.firstPCR) == if says then (time, false) else (m.timePCR, m.firstPCR)
  }

  /** Behind the first packet, the last says it if it has eight bytes or more to fill. */
  lemma {:induction false} TailClock(m: Mux, e: EsInfo, p: seq<byte>)
    requires Valid(m) && ValidInfo(e) && |p| < U32
    ensures var says := Sayable(m, e) && 0 < |p| % 184 <= 176;
      Clocks(TailPackets(m, e, p).1) == Said(m, e, says) && Moves(m, TailPackets(m, e, p).0, e.time, says)
    decreases |p|
  {
    hide Valid, Continue, TailPackets, Clocks, Count;
    if p == [] {
      NoClocks();
      TailPacketsNone(m, e);
    } else {
      TailUnfold(m, e, p);
      var next := Continue(m, e.pid, e.time, e.randomAccess, |p|);
      ContinueClock(m, e, p);
      var rest := TailPackets(next.0, e, p[next.2..]);
      TailClock(next.0, e, p[next.2..]);
      ClocksAppend([next.1 + p[..next.2]], rest.1);
      if |p| >= 184 {
        assert |p| % 184 == (|p| - 184) % 184;
        assert [] + Clocks(rest.1) == Clocks(rest.1);
      } else {
        assert p[next.2..] == [];
        assert Clocks([next.1 + p[..next.2]]) + [] == Clocks([next.1 + p[..next.2]]);
      }
    }
  }

  lemma TailPacketsNone(m: Mux, e: EsInfo)
    requires Valid(m) && ValidInfo(e)
    ensures TailPackets(m, e, []) == (m, [])
  {
  }

  lemma ContinueClock(m: Mux, e: EsInfo, p: seq<byte>)
    requires Valid(m) && ValidInfo(e) && 0 < |p| < U32
    ensures var next := Continue(m, e.pid, e.time, e.randomAccess, |p|);
      var says := Sayable(m, e) && |p| <= 176;
      && next.2 == Min(|p|, 184) && Valid(next.0)
      && Clocks([next.1 + p[..next.2]]) == Said(m, e, says) && Moves(m, next.0, e.time, says)
  {
    hide Clocks, Head, Adaptation, Valid;
    var next := Continue(m, e.pid, e.time, e.randomAccess, |p|);
    ContinueKeeps(m, e, |p|);
    var packet: Packet188 := next.1 + p[..next.2];
    if |p| >= 184 {
      PlainClock(false, e.pid, Counter(m, e.pid), p[..184], packet);
    } else {
      FieldClock(Count(m, e.pid), false, e.pid, e.time, e.randomAccess, 184 - |p|, Counter(m, e.pid), p[..next.2], packet);
    }
    SameValid(m, next.0);
  }

  lemma SameValid(m: Mux, m': Mux)
    requires Valid(m) && SameProgram(m, m')
    ensures Valid(m')
  {
    hide Increasing;
  }

  /** A first packet with `fill` bytes to fill. */
  lemma FirstClock(m: Mux, e: EsInfo, fill: byte, packet: Packet188)
    requires 0 <= e.pid < 512 && fill <= if e.esSize == 0 then 175 else 174 - StampsLength(e.compositionOffset)
    requires First(m, fill, e.pid, e.time, e.compositionOffset, e.randomAccess, e.esSize).1 <= packet
    ensures var says := Sayable(m, e) && fill >= 8;
      && Clocks([packet]) == Said(m, e, says)
      && Moves(m, First(m, fill, e.pid, e.time, e.compositionOffset, e.randomAccess, e.esSize).0, e.time, says)
  {
    hide Clocks, Head, Adaptation, PesHeader;
    FirstKeeps(m, fill, e.pid, e.time, e.compositionOffset, e.randomAccess, e.esSize);
    var pes := PesHeader(e.pid, e.time, e.compositionOffset, e.esSize);
    var head := First(m, fill, e.pid, e.time, e.compositionOffset, e.randomAccess, e.esSize).1;
    var rest := packet[|head|..];
    assert packet == head + rest;
    if fill > 0 {
      var front := Head(true, e.pid, true, Counter(m, e.pid)) + Adaptation(Count(m, e.pid), e.pid, e.time, e.randomAccess, fill);
      Associative(front, pes, rest);
      FieldClock(Count(m, e.pid), true, e.pid, e.time, e.randomAccess, fill, Counter(m, e.pid), pes + rest, packet);
    } else {
      var front := Head(true, e.pid, false, Counter(m, e.pid));
      assert front + [] == front;
      Associative(front, pes, rest);
      PlainClock(true, e.pid, Counter(m, e.pid), pes + rest, packet);
    }
  }

  /** Whether the clock is late: never said, or not for 100 ms. */
  predicate Late(m: Mux, e: EsInfo)
  {
    m.firstPCR || Signed32(e.time - m.timePCR) >= 100
  }

  /** The payload for which a first packet has room with nothing to fill, header and stamps
      as announced. */
  function Room(e: EsInfo): int
  {
    if e.compositionOffset != 0 then 165 else 170
  }

  /** What is left of the stream for further packets, if the first has nothing to fill; a
      stamp left out makes room for five bytes more. */
  function Behind(e: EsInfo): int
  {
    e.esSize - Room(e) - if Stamped(e) then 0 else 5
  }

  /** Whether a stream says the clock at all. On the clock's own pid it does in its first
      packet, where there are eight bytes to fill or the clock is late, or else in its last;
      on any other only in a packet of its own, if the clock is very late and the first
      packet full. */
  predicate Says(m: Mux, e: EsInfo)
  {
    e.time > m.timePCR
    && if e.pid == m.pidPCR then
         e.esSize <= Room(e) - 8 || Late(m, e) || (Behind(e) > 0 && 0 < Behind(e) % 184 <= 176)
       else
         e.esSize > Room(e) - 8 && Late(m, e) && Signed32(e.time - m.timePCR) >= 500
  }

  lemma PreludeClock(m: Mux, e: EsInfo)
    requires Valid(m) && ValidInfo(e) && e.esSize > 0
    ensures var m1 := MaybePmt(m, e.time).0;
      var says := e.pid != m1.pidPCR && Says(m1, e);
      && Clocks(PreludePackets(m, e)) == Said(m1, e, says)
      && Moves(m1, Prelude(m, e.pid, e.time, e.compositionOffset, e.esSize).0, e.time, says)
  {
    hide Valid, MaybePmt, MaybeTables, Clocks, First;
    var m1 := MaybePmt(m, e.time).0;
    TablesClock(m, e.time);
    ClocksAppend(MaybeTables(m, e.time), MaybeClock(m1, e));
    NoClocks();
    if ClockUrgent(m1, e.pid, e.time, e.compositionOffset, e.esSize) {
      PidInRange(m1);
      FirstClock(m1, EsInfo(m1.pidPCR, e.time, 0, false, 0), 175, ClockPacket(m1, e.time).1);
      assert [] + Clocks([ClockPacket(m1, e.time).1]) == Clocks([ClockPacket(m1, e.time).1]);
    } else {
      assert [] + Clocks([]) == [];
    }
  }

  lemma PidInRange(m: Mux)
    requires Valid(m)
    ensures m.pidPCR < 512
  {
  }

  lemma OpeningClock(m: Mux, e: EsInfo, packet: Packet188)
    requires Valid(m) && ValidInfo(e) && e.esSize > 0 && Opening(m, e).1 <= packet
    ensures var m1 := MaybePmt(m, e.time).0;
      var says := e.pid == m1.pidPCR && e.time > m1.timePCR && (e.esSize <= Room(e) - 8 || Late(m1, e));
      Clocks([packet]) == Said(m1, e, says)
      && Moves(Prelude(m, e.pid, e.time, e.compositionOffset, e.esSize).0, Opening(m, e).0, e.time, says)
  {
    hide Valid, MaybePmt, Clocks, First, Prelude;
    PreludeClock(m, e);
    var m1 := MaybePmt(m, e.time).0;
    var m2 := Prelude(m, e.pid, e.time, e.compositionOffset, e.esSize).0;
    var fill := StartFill(m1, e.pid, e.time, e.compositionOffset, e.esSize);
    FirstClock(m2, e, fill, packet);
  }

  /** What the first packet leaves of the payload. */
  lemma OpeningRoom(m: Mux, e: EsInfo)
    requires Valid(m) && ValidInfo(e) && e.esSize > 0
    ensures var m1 := MaybePmt(m, e.time).0;
      var left := e.esSize - Min(e.esSize, Opening(m, e).2);
      !(e.pid == m1.pidPCR && Late(m1, e)) ==> left == Max(0, Behind(e))
  {
    hide Valid, MaybePmt, Prelude, Pts, Dts;
    StampsSize(e);
  }

  lemma StampsSize(e: EsInfo)
    ensures |TsWriter.Stamps(e.time, e.compositionOffset)|
      == StampsLength(e.compositionOffset) - if Stamped(e) then 0 else 5
  {
  }

  /** Tables and clock, first packet, tail: the clock is said in at most one of them. */
  lemma OneSays(m1: Mux, m2: Mux, m3: Mux, e: EsInfo, left: nat, first: bool)
    requires first == (e.pid == m1.pidPCR && e.time > m1.timePCR && (e.esSize <= Room(e) - 8 || Late(m1, e)))
    requires Moves(m1, m2, e.time, e.pid != m1.pidPCR && Says(m1, e)) && Moves(m2, m3, e.time, first)
    requires !(e.pid == m1.pidPCR && Late(m1, e)) ==> left == Max(0, Behind(e))
    ensures var tail := Sayable(m3, e) && 0 < left % 184 <= 176;
      && Said(m1, e, e.pid != m1.pidPCR && Says(m1, e)) + Said(m1, e, first) + Said(m3, e, tail) == Said(m1, e, Says(m1, e))
      && (if tail then (e.time, false) else (m3.timePCR, m3.firstPCR))
         == if Says(m1, e) then (e.time, false) else (m1.timePCR, m1.firstPCR)
  {
    hide Late, Ticks, Stamped;
  }

  /** A whole stream, with or without its stamp. */
  lemma StreamClock(m: Mux, e: EsInfo, packet: Packet188, p2: seq<byte>)
    requires Valid(m) && ValidInfo(e) && e.esSize > 0 && Opening(m, e).1 <= packet
    requires |p2| == e.esSize - Min(e.esSize, Opening(m, e).2)
    ensures Valid(Opening(m, e).0)
    ensures var m1 := MaybePmt(m, e.time).0;
      var tail := TailPackets(Opening(m, e).0, e, p2);
      && Clocks(PreludePackets(m, e) + [packet] + tail.1) == Said(m1, e, Says(m1, e))
      && (tail.0.timePCR, tail.0.firstPCR) == if Says(m1, e) then (e.time, false) else (m1.timePCR, m1.firstPCR)
  {
    hide Valid, MaybePmt, Prelude, PreludePackets, Opening, TailPackets, Clocks, Late, Room, Behind, Says, Sayable, Said;
    OpeningIs(m, e);
    PreludeClock(m, e);
    OpeningClock(m, e, packet);
    OpeningRoom(m, e);
    var m1, m2, m3 := MaybePmt(m, e.time).0, Prelude(m, e.pid, e.time, e.compositionOffset, e.esSize).0, Opening(m, e).0;
    TailClock(m3, e, p2);
    ClocksAppend(PreludePackets(m, e) + [packet], TailPackets(m3, e, p2).1);
    ClocksAppend(PreludePackets(m, e), [packet]);
    OneSays(m1, m2, m3, e, |p2|, e.pid == m1.pidPCR && e.time > m1.timePCR && (e.esSize <= Room(e) - 8 || Late(m1, e)));
  }

  // ----- a run ------------------------------------------------------------------------------------

  /** What a frame says of the clock: the pid and the frame's time, at most once. */
  function FrameClock(m: Mux, f: Frame): seq<(int, UInt32)>
    requires Valid(m) && Writable(f)
  {
    if !Sent(m, f) then []
    else
      RegisterValid(m, f);
      var m1 := MaybePmt(Register(m, f).1, f.time).0;
      if Says(m1, Info(f)) then [(m1.pidPCR as int, f.time)] else []
  }

  function RunClock(m: Mux, frames: seq<Frame>): seq<(int, UInt32)>
    requires Valid(m) && forall f :: f in frames ==> Writable(f)
    decreases |frames|
  {
    if frames == [] then [] else FrameClock(m, frames[0]) + RunClock(FrameStep(m, frames[0]).0, frames[1..])
  }

  function AllTicks(said: seq<(int, UInt32)>): seq<(int, nat)>
  {
    seq(|said|, i requires 0 <= i < |said| => (said[i].0, Ticks(said[i].1)))
  }

  lemma FrameClocks(m: Mux, f: Frame)
    requires Valid(m) && Writable(f)
    ensures var said := FrameClock(m, f);
      && Clocks(FrameStep(m, f).1) == AllTicks(said)
      && (said != [] ==> said[0].1 > m.timePCR && said[0].1 == FrameStep(m, f).0.timePCR)
      && (said == [] ==> FrameStep(m, f).0.timePCR == m.timePCR)
  {
    hide Valid, Says, Clocks, TailPackets, Opening, Register, Concat, Stamped, MaybeTables, MaybeClock, MaybePmt, Ticks;
    NoClocks();
    RegisterClock(m, f);
    if Sent(m, f) {
      RegisterValid(m, f);
      InfoValid(f);
      var m1, e, p := Register(m, f).1, Info(f), Concat(f.chunks);
      PmtClock(m1, e.time);
      OpeningIs(m1, e);
      if Stamped(e) {
        StampedStream(m1, e, p);
      } else {
        UnstampedStream(m1, e, p);
      }
      SaysLater(MaybePmt(m1, e.time).0, e);
    }
  }

  lemma SaysLater(m: Mux, e: EsInfo)
    ensures Says(m, e) ==> e.time > m.timePCR
  {
  }

  lemma RegisterClock(m: Mux, f: Frame)
    requires Valid(m) && Writable(f)
    ensures Register(m, f).1.timePCR == m.timePCR
  {
    hide PutTrack, HasTrack, KindOf, Valid;
  }

  lemma PmtClock(m: Mux, time: UInt32)
    requires Valid(m)
    ensures MaybePmt(m, time).0.timePCR == m.timePCR
  {
    hide PatPacket, PmtPacket, Streams, Valid;
  }

  lemma StampedStream(m: Mux, e: EsInfo, p: seq<byte>)
    requires Valid(m) && ValidInfo(e) && Stamped(e) && |p| == e.esSize > 0
    ensures var m1 := MaybePmt(m, e.time).0;
      var frame := FramePackets(m, e, p);
      && Clocks(frame.1) == Said(m1, e, Says(m1, e))
      && frame.0.timePCR == if Says(m1, e) then e.time else m1.timePCR
  {
    hide Valid, MaybePmt, MaybeTables, MaybeClock, First, Prelude, StartFill, TailPackets, Clocks, Says, Stamped, Said;
    FirstFits(m, e);
    var first := FirstPacket(m, e, p);
    StreamClock(m, e, first.1, p[first.2..]);
  }

  lemma UnstampedStream(m: Mux, e: EsInfo, p: seq<byte>)
    requires Valid(m) && ValidInfo(e) && |p| == e.esSize > 0
    ensures var m1 := MaybePmt(m, e.time).0;
      var frame := UnstampedFrame(m, e, p);
      && Clocks(frame.1) == Said(m1, e, Says(m1, e))
      && frame.0.timePCR == if Says(m1, e) then e.time else m1.timePCR
  {
    hide Valid, MaybePmt, MaybeTables, MaybeClock, Opening, TailPackets, Clocks, Says, Said;
    var first := UnstampedFirst(m, e, p);
    StreamClock(m, e, first.1, p[first.2..]);
  }

  /** The clock references of a run, packet by packet, are those its frames say: on the
      clock's pid, each with the time of its frame, always later than the one before. */
  lemma {:induction false} RunClocks(m: Mux, frames: seq<Frame>)
    requires Valid(m) && forall f :: f in frames ==> Writable(f)
    ensures Clocks(RunPackets(m, frames).1) == AllTicks(RunClock(m, frames))
    ensures forall i :: 0 <= i < |RunClock(m, frames)| ==> RunClock(m, frames)[i].1 > m.timePCR
    ensures forall i, j :: 0 <= i < j < |RunClock(m, frames)| ==> RunClock(m, frames)[i].1 < RunClock(m, frames)[j].1
    decreases |frames|
  {
    hide Valid, FrameStep, FrameClock, Clocks, Ticks, Writable;
    NoClocks();
    if frames != [] {
      FrameClocks(m, frames[0]);
      AtMostOne(m, frames[0]);
      var first := FrameStep(m, frames[0]);
      RunClocks(first.0, frames[1..]);
      ClocksAppend(first.1, RunPackets(first.0, frames[1..]).1);
    }
  }

  lemma AtMostOne(m: Mux, f: Frame)
    requires Valid(m) && Writable(f)
    ensures |FrameClock(m, f)| <= 1
  {
    hide Says, MaybePmt, Register, Concat;
  }
}
