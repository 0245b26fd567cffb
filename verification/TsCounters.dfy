/** Continuity counters: every packet TSWriter sends on a pid counts one on. */
module TsCounters {
  import opened Bytes
  import opened TsWriter
  import opened TsPackets
  import opened TsReading
  import opened TsRoundTrip
  import opened TsSession
  import opened TsExactly
  import opened TsClock

  /** The counters of the packets of a pid, in order. */
  function CountersOf(ps: seq<Packet188>, q: int): seq<nat>
  {
    if ps == [] then []
    else (if PidOf(ps[0]) == q then [ps[0][3] as int % 16] else []) + CountersOf(ps[1..], q)
  }

  lemma {:induction false} CountersAppend(a: seq<Packet188>, b: seq<Packet188>, q: int)
    ensures CountersOf(a + b, q) == CountersOf(a, q) + CountersOf(b, q)
  {
    if a == [] {
      assert a + b == b;
    } else {
      assert (a + b)[0] == a[0] && (a + b)[1..] == a[1..] + b;
      var first: seq<nat> := if PidOf(a[0]) == q then [a[0][3] as int % 16] else [];
      assert CountersOf(a, q) == first + CountersOf(a[1..], q);
      assert CountersOf(a + b, q) == first + CountersOf(a[1..] + b, q);
      hide CountersOf, PidOf;
      CountersAppend(a[1..], b, q);
      Associative(first, CountersOf(a[1..], q), CountersOf(b, q));
    }
  }

  /** From a counter on, on four bits. */
  function Onward(from: nat, n: nat): (s: seq<nat>)
    ensures |s| == n
  {
    seq(n, i requires 0 <= i < n => (from + i) % 16)
  }

  /** On every pid the packets are counted from the writer's counter on, which moves with them. */
  ghost predicate Continues(m: Mux, ps: seq<Packet188>, m': Mux)
  {
    forall q :: ContinuesOn(m, ps, m', q)
  }

  predicate ContinuesOn(m: Mux, ps: seq<Packet188>, m': Mux, q: int)
  {
    var n := |CountersOf(ps, q)|;
    CountersOf(ps, q) == Onward(Counter(m, q), n) && Counter(m', q) == (Counter(m, q) + n) % 256
  }

  lemma OnwardAt(from: byte, n: nat, i: nat)
    ensures ((from + n) % 256 + i) % 16 == (from + (n + i)) % 16
  {
    LowNibble(from + n, i);
  }

  lemma OnwardMore(from: byte, n: nat, k: nat)
    ensures Onward(from, n) + Onward((from + n) % 256, k) == Onward(from, n + k)
    ensures ((from + n) % 256 + k) % 256 == (from + (n + k)) % 256
  {
    var a, b, all := Onward(from, n), Onward((from + n) % 256, k), Onward(from, n + k);
    forall j | 0 <= j < n + k ensures (a + b)[j] == all[j] {
      if j >= n {
        OnwardAt(from, n, j - n);
      }
    }
  }

  lemma LowNibble(x: nat, i: nat)
    ensures (x % 256 + i) % 16 == (x + i) % 16
  {
    var q := x / 256;
    assert x + i == x % 256 + i + 16 * (16 * q);
    Sixteens(x % 256 + i, 16 * q);
  }

  lemma Sixteens(x: int, q: int)
    ensures (x + 16 * q) % 16 == x % 16
  {
  }

  lemma ContinuesBoth(m: Mux, a: seq<Packet188>, m1: Mux, b: seq<Packet188>, m2: Mux)
    requires Continues(m, a, m1) && Continues(m1, b, m2)
    ensures Continues(m, a + b, m2)
  {
    hide Counter, CountersOf, Onward;
    forall q ensures ContinuesOn(m, a + b, m2, q) {
      assert ContinuesOn(m, a, m1, q) && ContinuesOn(m1, b, m2, q);
      CountersAppend(a, b, q);
      OnwardMore(Counter(m, q), |CountersOf(a, q)|, |CountersOf(b, q)|);
    }
  }

  lemma ContinuesNone(m: Mux, m': Mux)
    requires m'.pids == m.pids
    ensures Continues(m, [], m')
  {
    forall q ensures ContinuesOn(m, [], m', q) {
      assert Onward(Counter(m, q), 0) == [];
    }
  }

  /** One packet, counted with its pid's counter. */
  lemma ContinuesOne(m: Mux, p: Packet188, m': Mux, pid: int)
    requires PidOf(p) == pid && p[3] % 16 == Counter(m, pid) % 16 && m'.pids == Count(m, pid).pids
    ensures Continues(m, [p], m')
  {
    CountsOn(m, m', pid);
    hide Counter, Count;
    forall q ensures ContinuesOn(m, [p], m', q) {
      assert [p][1..] == [] && CountersOf([], q) == [];
      if q == pid {
        assert Onward(Counter(m, q), 1) == [Counter(m, q) % 16];
      } else {
        assert Onward(Counter(m, q), 0) == [];
      }
    }
  }

  lemma CountsOn(m: Mux, m': Mux, pid: int)
    requires m'.pids == Count(m, pid).pids
    ensures Counter(m', pid) == (Counter(m, pid) + 1) % 256
    ensures forall q :: q != pid ==> Counter(m', q) == Counter(m, q)
  {
  }

  lemma HeadCounter(start: bool, pid: int, adapted: bool, counter: byte, p: Packet188)
    requires 0 <= pid < 512 && Head(start, pid, adapted, counter) <= p
    ensures PidOf(p) == pid && p[3] % 16 == counter % 16
  {
    var h := Head(start, pid, adapted, counter);
    HeadBytes(start, pid, adapted, counter);
    assert p[1] == h[1] && p[2] == h[2] && p[3] == h[3];
  }

  // ----- tables, clock and streams -----------------------------------------------------------

  lemma TablesCount(m: Mux, time: UInt32)
    requires Valid(m)
    ensures Continues(m, MaybeTables(m, time), MaybePmt(m, time).0)
  {
    hide Crc, Streams, PmtSection, Fill, Valid, Counter, Continues;
    if PmtDue(m, time) {
      var m1 := WithVersion(m);
      var m2 := Count(m1, 0);
      var m3 := Count(m2, PMT_PID);
      var ps := TablePackets(m);
      assert ps[0][3] == 0x10 + Counter(m1, 0) % 16 && ps[1][3] == 0x10 + Counter(m2, PMT_PID) % 16;
      SamePids(m, m1, 0);
      ContinuesOne(m, ps[0], m2, 0);
      ContinuesOne(m2, ps[1], MaybePmt(m, time).0, PMT_PID);
      ContinuesBoth(m, [ps[0]], m2, [ps[1]], MaybePmt(m, time).0);
      assert ps == [ps[0]] + [ps[1]];
    } else {
      ContinuesNone(m, m);
    }
  }

  lemma SamePids(m: Mux, m': Mux, pid: int)
    requires m'.pids == m.pids
    ensures Counter(m', pid) == Counter(m, pid) && Count(m', pid).pids == Count(m, pid).pids
  {
  }

  lemma FirstCounts(m: Mux, fill: byte, pid: int, time: UInt32, compositionOffset: UInt16, randomAccess: bool, size: UInt32,
                    p: Packet188)
    requires 0 <= pid < 512 && fill <= if size == 0 then 175 else 174 - StampsLength(compositionOffset)
    requires First(m, fill, pid, time, compositionOffset, randomAccess, size).1 <= p
    ensures Continues(m, [p], First(m, fill, pid, time, compositionOffset, randomAccess, size).0)
  {
    FirstKeeps(m, fill, pid, time, compositionOffset, randomAccess, size);
    FirstHead(m, fill, pid, time, compositionOffset, randomAccess, size);
    hide First, Continues, Counter, Head;
    HeadCounter(true, pid, fill > 0, Counter(m, pid), p);
    ContinuesOne(m, p, First(m, fill, pid, time, compositionOffset, randomAccess, size).0, pid);
  }

  lemma FirstHead(m: Mux, fill: byte, pid: int, time: UInt32, compositionOffset: UInt16, randomAccess: bool, size: UInt32)
    requires 0 <= pid < 512 && fill <= if size == 0 then 175 else 174 - StampsLength(compositionOffset)
    ensures Head(true, pid, fill > 0, Counter(m, pid)) <= First(m, fill, pid, time, compositionOffset, randomAccess, size).1
  {
    hide Head, Adaptation, PesHeader;
  }

  lemma PreludeCounts(m: Mux, e: EsInfo)
    requires Valid(m) && e.esSize > 0
    ensures Continues(m, PreludePackets(m, e), Prelude(m, e.pid, e.time, e.compositionOffset, e.esSize).0)
  {
    hide Valid, MaybePmt, MaybeTables, First, Continues;
    var m1 := MaybePmt(m, e.time).0;
    TablesCount(m, e.time);
    if ClockUrgent(m1, e.pid, e.time, e.compositionOffset, e.esSize) {
      PidInRange(m1);
      FirstCounts(m1, 175, m1.pidPCR, e.time, 0, false, 0, ClockPacket(m1, e.time).1);
    } else {
      ContinuesNone(m1, m1);
    }
    ContinuesBoth(m, MaybeTables(m, e.time), m1, MaybeClock(m1, e),
                  Prelude(m, e.pid, e.time, e.compositionOffset, e.esSize).0);
  }

  lemma {:induction false} TailCounts(m: Mux, e: EsInfo, p: seq<byte>)
    requires Valid(m) && ValidInfo(e) && |p| < U32
    ensures Continues(m, TailPackets(m, e, p).1, TailPackets(m, e, p).0)
    decreases |p|
  {
    hide Valid, Continue, TailPackets, Continues;
    if p == [] {
      TailPacketsNone(m, e);
      ContinuesNone(m, m);
    } else {
      ContinueClock(m, e, p);
      TailUnfold(m, e, p);
      var next := Continue(m, e.pid, e.time, e.randomAccess, |p|);
      var rest := TailPackets(next.0, e, p[next.2..]);
      ContinueCounts(m, e, p);
      TailCounts(next.0, e, p[next.2..]);
      ContinuesBoth(m, [next.1 + p[..next.2]], next.0, rest.1, rest.0);
    }
  }

  lemma ContinueCounts(m: Mux, e: EsInfo, p: seq<byte>)
    requires ValidInfo(e) && 0 < |p| < U32
    ensures var next := Continue(m, e.pid, e.time, e.randomAccess, |p|);
      Continues(m, [next.1 + p[..next.2]], next.0)
  {
    hide Head, Adaptation, Continues, Counter;
    var next := Continue(m, e.pid, e.time, e.randomAccess, |p|);
    ContinueKeeps(m, e, |p|);
    var packet: Packet188 := next.1 + p[..next.2];
    HeadCounter(false, e.pid, |p| < 184, Counter(m, e.pid), packet);
    ContinuesOne(m, packet, next.0, e.pid);
  }

  lemma StreamCounts(m: Mux, e: EsInfo, packet: Packet188, p2: seq<byte>)
    requires Valid(m) && ValidInfo(e) && e.esSize > 0 && Opening(m, e).1 <= packet && |p2| < U32
    ensures Valid(Opening(m, e).0)
    ensures var tail := TailPackets(Opening(m, e).0, e, p2);
      Continues(m, PreludePackets(m, e) + [packet] + tail.1, tail.0)
  {
    hide Valid, MaybePmt, Prelude, PreludePackets, First, TailPackets, Continues, StartFill;
    OpeningIs(m, e);
    PreludeCounts(m, e);
    var m1 := Prelude(m, e.pid, e.time, e.compositionOffset, e.esSize).0;
    var fill := StartFill(MaybePmt(m, e.time).0, e.pid, e.time, e.compositionOffset, e.esSize);
    FirstCounts(m1, fill, e.pid, e.time, e.compositionOffset, e.randomAccess, e.esSize, packet);
    var m2 := Opening(m, e).0;
    ContinuesBoth(m, PreludePackets(m, e), m1, [packet], m2);
    TailCounts(m2, e, p2);
    ContinuesBoth(m, PreludePackets(m, e) + [packet], m2, TailPackets(m2, e, p2).1, TailPackets(m2, e, p2).0);
  }

  // ----- runs ------------------------------------------------------------------------------------

  lemma FrameCounts(m: Mux, f: Frame)
    requires Valid(m) && Writable(f)
    ensures Continues(m, FrameStep(m, f).1, FrameStep(m, f).0)
  {
    hide Valid, TailPackets, Opening, Register, Concat, Stamped, MaybeTables, MaybeClock, Continues;
    RegisterPids(m, f);
    var m1 := Register(m, f).1;
    if !Sent(m, f) {
      ContinuesNone(m, FrameStep(m, f).0);
    } else {
      RegisterValid(m, f);
      InfoValid(f);
      var e, p := Info(f), Concat(f.chunks);
      OpeningIs(m1, e);
      ContinuesNone(m, m1);
      if Stamped(e) {
        StampedCounts(m1, e, p);
      } else {
        var first := UnstampedFirst(m1, e, p);
        StreamCounts(m1, e, first.1, p[first.2..]);
      }
      ContinuesBoth(m, [], m1, FrameStep(m, f).1, FrameStep(m, f).0);
      assert [] + FrameStep(m, f).1 == FrameStep(m, f).1;
    }
  }

  lemma RegisterPids(m: Mux, f: Frame)
    requires Valid(m) && Writable(f)
    ensures Register(m, f).1.pids == m.pids
  {
    hide PutTrack, HasTrack, KindOf, Valid;
  }

  lemma StampedCounts(m: Mux, e: EsInfo, p: seq<byte>)
    requires Valid(m) && ValidInfo(e) && Stamped(e) && |p| == e.esSize > 0
    ensures Continues(m, FramePackets(m, e, p).1, FramePackets(m, e, p).0)
  {
    hide Valid, MaybePmt, MaybeTables, MaybeClock, First, Prelude, StartFill, TailPackets, Stamped, Continues;
    FirstFits(m, e);
    var first := FirstPacket(m, e, p);
    StreamCounts(m, e, first.1, p[first.2..]);
  }

  /** In every run the packets of each pid, tables and clock packets among them, are counted
      without a gap from the writer's counter on, which is 0 for a pid never used. */
  lemma {:induction false} RunCounts(m: Mux, frames: seq<Frame>)
    requires Valid(m) && forall f :: f in frames ==> Writable(f)
    ensures Continues(m, RunPackets(m, frames).1, RunPackets(m, frames).0)
    decreases |frames|
  {
    hide Valid, FrameStep, Continues, Writable;
    if frames == [] {
      ContinuesNone(m, m);
    } else {
      FrameCounts(m, frames[0]);
      var first := FrameStep(m, frames[0]);
      RunCounts(first.0, frames[1..]);
      var rest := RunPackets(first.0, frames[1..]);
      ContinuesBoth(m, first.1, first.0, rest.1, rest.0);
    }
  }

  /** On a new writer each pid's packets are counted 0, 1, 2 and so on. */
  lemma CountsFromZero(m: Mux, frames: seq<Frame>, q: int)
    requires Valid(m) && m.pids == map[] && forall f :: f in frames ==> Writable(f)
    ensures var counters := CountersOf(RunPackets(m, frames).1, q);
      forall i :: 0 <= i < |counters| ==> counters[i] == i % 16
  {
    hide Valid, RunPackets, Writable;
    RunCounts(m, frames);
    assert ContinuesOn(m, RunPackets(m, frames).1, RunPackets(m, frames).0, q);
  }
}
