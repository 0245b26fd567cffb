/** Whole sessions of any frames: what is read of them, and exactly when that is what
    was written. */
module TsExactly {
  import opened Bytes
  import opened Options
  import opened TsWriter
  import opened TsPackets
  import opened TsReading
  import opened TsRoundTrip
  import opened TsSession
  import opened TsStamps
  import TsReader

  // ----- any stream in any pieces, as long as they stay within its size ------------------

  /** How many bytes of the stream are still to come. */
  function Remaining(w: Writer, e: EsInfo): nat
  {
    if w.toWrite == 0 then e.esSize else w.toWrite
  }

  lemma PrepareRemaining(w: Writer, e: EsInfo)
    requires Valid(w.mux) && ValidInfo(e) && e.esSize > 0
    ensures Prepare(w, e).0.toWrite == Remaining(w, e) > 0
  {
    hide Start, Continue, Valid;
  }

  lemma {:induction false} EsRemaining(w: Writer, e: EsInfo, a: seq<byte>)
    requires Valid(w.mux) && ValidInfo(e) && e.esSize > 0
    requires a != [] && |a| <= Remaining(w, e)
    ensures Es(w, e, a).0.toWrite == Remaining(w, e) - |a|
    decreases |a|
  {
    hide Valid, Prepare, Es;
    EsUnfold(w, e, a);
    PrepareRemaining(w, e);
    var w1 := Prepare(w, e).0;
    var n := Min(|a|, w1.canWrite);
    if a[n..] == [] {
      EsNothing(Consume(w1, n), e);
    } else {
      EsRemaining(Consume(w1, n), e, a[n..]);
    }
  }

  /** Two calls do what one call with both payloads does. */
  lemma {:induction false} EsTwice(w: Writer, e: EsInfo, a: seq<byte>, b: seq<byte>)
    requires Valid(w.mux) && ValidInfo(e) && e.esSize > 0 && |a| + |b| <= Remaining(w, e)
    ensures Es(w, e, a + b).0 == Es(Es(w, e, a).0, e, b).0
    ensures Es(w, e, a + b).1 == Es(w, e, a).1 + Es(Es(w, e, a).0, e, b).1
    decreases |a|
  {
    hide Valid, Prepare, Es;
    if a == [] {
      assert a + b == b;
      EsNothing(w, e);
    } else if b == [] {
      assert a + b == a;
      EsNothing(Es(w, e, a).0, e);
    } else {
      PrepareRemaining(w, e);
      var w1 := Prepare(w, e).0;
      EsUnfold(w, e, a + b);
      EsUnfold(w, e, a);
      if |a| < w1.canWrite {
        EsInside(w, e, a);
        var n := Min(|b|, w1.canWrite - |a|);
        assert a + b[..n] + b[n..] == a + b && b[..n] + b[n..] == b;
        EsTwiceInside(w, e, a, b[..n], b[n..], w1, Prepare(w, e).1, Consume(w1, |a|));
      } else {
        var n := w1.canWrite;
        var w2 := Consume(w1, n);
        assert (a + b)[..n] == a[..n] && (a + b)[n..] == a[n..] + b;
        EsTwice(w2, e, a[n..], b);
        Associative(Prepare(w, e).1 + a[..n], Es(w2, e, a[n..]).1, Es(Es(w2, e, a[n..]).0, e, b).1);
      }
    }
  }

  /** A payload that does not fill its packet. */
  lemma EsInside(w: Writer, e: EsInfo, a: seq<byte>)
    requires Valid(w.mux) && ValidInfo(e) && e.esSize > 0 && a != [] && |a| < Prepare(w, e).0.canWrite
    ensures Es(w, e, a) == (Consume(Prepare(w, e).0, |a|), Prepare(w, e).1 + a)
  {
    hide Valid, Prepare, Es;
    EsUnfold(w, e, a);
    assert a[..|a|] == a && a[|a|..] == [];
    EsNothing(Consume(Prepare(w, e).0, |a|), e);
    assert Prepare(w, e).1 + a + [] == Prepare(w, e).1 + a;
  }

  /** Of the second payload, `front` still goes into that packet. */
  lemma EsTwiceInside(w: Writer, e: EsInfo, a: seq<byte>, front: seq<byte>, rest: seq<byte>,
                      w1: Writer, head: seq<byte>, w2: Writer)
    requires Valid(w.mux) && ValidInfo(e) && e.esSize > 0 && |a + front + rest| <= Remaining(w, e)
    requires a != [] && front != [] && Prepare(w, e) == (w1, head)
    requires |a| < w1.canWrite && w2 == Consume(w1, |a|) && |front| == Min(|front + rest|, w2.canWrite)
    ensures Valid(w2.mux)
    ensures Es(w, e, a + front + rest) == (Es(w2, e, front + rest).0, head + a + Es(w2, e, front + rest).1)
  {
    hide Valid, Prepare, Es;
    PrepareRemaining(w, e);
    NothingDue(w2, e);
    var w3 := Consume(w2, |front|);
    ConsumeTwice(w1, |a|, |front|, |a + front|);
    EsOf(w, e, w1, head, a + front, rest, w3);
    EsOf(w2, e, w2, [], front, rest, w3);
    Sums(head, a, front, Es(w3, e, rest).1);
  }

  lemma EsOf(w: Writer, e: EsInfo, w1: Writer, head: seq<byte>, front: seq<byte>, rest: seq<byte>, w2: Writer)
    requires Valid(w.mux) && ValidInfo(e) && e.esSize > 0 && front + rest != [] && Prepare(w, e) == (w1, head)
    requires |front| == Min(|front + rest|, w1.canWrite) && Consume(w1, |front|) == w2
    ensures Valid(w2.mux)
    ensures Es(w, e, front + rest) == (Es(w2, e, rest).0, head + front + Es(w2, e, rest).1)
  {
    hide Valid, Prepare, Es;
    EsUnfold(w, e, front + rest);
    assert (front + rest)[..|front|] == front && (front + rest)[|front|..] == rest;
  }

  lemma ConsumeTwice(w: Writer, k: nat, n: nat, both: nat)
    requires k + n == both <= w.canWrite && both <= w.toWrite
    ensures Consume(Consume(w, k), n) == Consume(w, both)
  {
  }

  lemma Sums(a: seq<byte>, b: seq<byte>, c: seq<byte>, d: seq<byte>)
    ensures a + (b + c) + d == a + b + ([] + c + d)
  {
    assert [] + c == c;
    assert a + (b + c) + d == a + b + (c + d);
  }

  lemma NothingDue(w: Writer, e: EsInfo)
    requires Valid(w.mux) && ValidInfo(e) && e.esSize > 0 && w.toWrite > 0 && w.canWrite > 0
    ensures Prepare(w, e) == (w, [])
  {
    hide Valid, Start, Continue;
  }

  lemma {:induction false} EsCallsAny(w: Writer, e: EsInfo, chunks: seq<seq<byte>>)
    requires Valid(w.mux) && ValidInfo(e) && e.esSize > 0 && |Concat(chunks)| <= Remaining(w, e)
    ensures EsCalls(w, e, chunks) == Es(w, e, Concat(chunks))
    decreases |chunks|
  {
    hide Valid, Es;
    if chunks == [] {
      EsNothing(w, e);
    } else {
      var rest := Concat(chunks[1..]);
      EsTwice(w, e, chunks[0], rest);
      var w1 := Es(w, e, chunks[0]).0;
      if rest == [] {
        EmptyCalls(w1, e, chunks[1..]);
        EsNothing(w1, e);
      } else {
        if chunks[0] == [] {
          EsNothing(w, e);
        } else {
          EsRemaining(w, e, chunks[0]);
        }
        EsCallsAny(w1, e, chunks[1..]);
      }
    }
  }

  // ----- a stream without its stamp, written ---------------------------------------------

  /** What an unfinished packet still takes. */
  function Unfinished(m: Mux, e: EsInfo, p: seq<byte>): byte
    requires Valid(m) && ValidInfo(e) && e.esSize > 0
  {
    Opening(m, e).2 - Min(|p|, Opening(m, e).2)
  }

  lemma EsUnstamped(m: Mux, e: EsInfo, p: seq<byte>)
    requires Valid(m) && ValidInfo(e) && |p| == e.esSize > 0
    ensures Es(Writer(m, 0, 0), e, p).0 == Writer(UnstampedFrame(m, e, p).0, Unfinished(m, e, p), 0)
    ensures Es(Writer(m, 0, 0), e, p).1 + Fill(Unfinished(m, e, p), 0xFF) == Flat(UnstampedFrame(m, e, p).1)
  {
    hide Valid, Es, Prelude, Opening, Start, MaybePmt, MaybeTables, MaybeClock, TailPackets, Flat, Prepare;
    var first := Opening(m, e);
    OpeningIs(m, e);
    PrepareStart(m, e);
    PreludeIsPackets(m, e);
    var w := Writer(m, 0, 0);
    var n := Min(|p|, first.2);
    EsUnfold(w, e, p);
    var w2 := Writer(first.0, first.2 - n, |p| - n);
    var tables, clock := Flat(MaybeTables(m, e.time)), Flat(MaybeClock(MaybePmt(m, e.time).0, e));
    var packet := Stuffed(first.1, first.2, p);
    FlatFrame(MaybeTables(m, e.time), MaybeClock(MaybePmt(m, e.time).0, e), packet, TailPackets(first.0, e, p[n..]).1);
    if n < |p| {
      TailIsPackets(w2, e, p[n..]);
      Gather(tables + clock, first.1, p[..n], Flat(TailPackets(first.0, e, p[n..]).1));
    } else {
      assert p[n..] == [];
      EsNothing(w2, e);
      NoTail(first.0, e);
      Gather(tables + clock, first.1, p[..n], []);
    }
    GatherFill(tables + clock, first.1, p[..n], first.2 - n);
  }

  lemma NoTail(m: Mux, e: EsInfo)
    requires Valid(m) && ValidInfo(e)
    ensures TailPackets(m, e, []) == (m, []) && Flat([]) == []
  {
  }

  lemma Gather(a: seq<byte>, b: seq<byte>, c: seq<byte>, d: seq<byte>)
    ensures a + b + c + d + Fill(0, 0xFF) == a + (b + (c + Fill(0, 0xFF))) + d
  {
    assert Fill(0, 0xFF) == [];
    assert c + [] == c;
    Associative(a, b, c);
    assert a + (b + c) + d + [] == a + (b + c) + d;
  }

  lemma GatherFill(a: seq<byte>, b: seq<byte>, c: seq<byte>, n: nat)
    ensures a + b + c + [] + Fill(n, 0xFF) == a + (b + (c + Fill(n, 0xFF))) + []
  {
    var f := Fill(n, 0xFF);
    assert a + b + c + [] + f == a + (b + (c + f)) + [];
  }

  /** What is left unfinished is completed in front of the next stream. */
  lemma EsAfter(m: Mux, left: byte, e: EsInfo, p: seq<byte>)
    requires Valid(m) && ValidInfo(e) && e.esSize > 0 && p != []
    ensures Es(Writer(m, left, 0), e, p)
      == (Es(Writer(m, 0, 0), e, p).0, Fill(left, 0xFF) + Es(Writer(m, 0, 0), e, p).1)
  {
    hide Valid, Es, Start;
    EsUnfold(Writer(m, left, 0), e, p);
    EsUnfold(Writer(m, 0, 0), e, p);
    var start := Start(m, e.pid, e.time, e.compositionOffset, e.randomAccess, e.esSize);
    assert Fill(0, 0xFF) == [] && [] + start.1 == start.1;
    var n := Min(|p|, start.2);
    var later := Es(Consume(Writer(start.0, start.2, e.esSize), n), e, p[n..]).1;
    Associative(Fill(left, 0xFF), start.1, p[..n]);
    Associative(Fill(left, 0xFF), start.1 + p[..n], later);
  }

  // ----- any run, written --------------------------------------------------------------------

  lemma WriteAny(m: Mux, left: byte, f: Frame)
    requires Valid(m) && Writable(f)
    ensures var out := WriteFrame(Writer(m, left, 0), f);
      && out.0 == Writer(FrameStep(m, f).0, out.0.canWrite, 0)
      && out.1 + Fill(out.0.canWrite, 0xFF) == Fill(left, 0xFF) + Flat(FrameStep(m, f).1)
      && (!Sent(m, f) ==> out.0.canWrite == left)
      && (Sent(m, f) && Stamped(Info(f)) ==> out.0.canWrite == 0)
  {
    hide Valid, Es, EsCalls, Register, Concat, Stamped, FramePackets, UnstampedFrame, Flat, Opening;
    var p := Concat(f.chunks);
    var fill := Fill(left, 0xFF);
    NoneFlat();
    if !Register(m, f).0 {
      assert [] + fill == fill + [];
    } else {
      var m1 := Register(m, f).1;
      RegisterValid(m, f);
      InfoValid(f);
      if p == [] {
        assert [] + fill == fill + [];
      } else {
        var e := Info(f);
        EsCallsAny(Writer(m1, left, 0), e, f.chunks);
        EsAfter(m1, left, e, p);
        var out := Es(Writer(m1, 0, 0), e, p);
        if Stamped(e) {
          EsIsPackets(m1, e, p);
          assert Fill(0, 0xFF) == [] && fill + out.1 + [] == fill + out.1;
        } else {
          EsUnstamped(m1, e, p);
          Associative(fill, out.1, Fill(out.0.canWrite, 0xFF));
        }
      }
    }
  }

  lemma NoneFlat()
    ensures Flat([]) == []
  {
  }

  /** The bytes of a run are its packets, but for the end of an unfinished last one. */
  lemma {:induction false} RunAny(m: Mux, left: byte, frames: seq<Frame>)
    requires Valid(m) && forall f :: f in frames ==> Writable(f)
    ensures var out := WriteRun(Writer(m, left, 0), frames);
      out.1 + Fill(out.0.canWrite, 0xFF) == Fill(left, 0xFF) + Flat(RunPackets(m, frames).1)
    decreases |frames|
  {
    hide Valid, FrameStep, WriteFrame, Writable, Flat;
    if frames == [] {
      NoneFlat();
      assert [] + Fill(left, 0xFF) == Fill(left, 0xFF) + [];
    } else {
      WriteAny(m, left, frames[0]);
      var first := WriteFrame(Writer(m, left, 0), frames[0]);
      var step := FrameStep(m, frames[0]);
      var n := first.0.canWrite;
      RunAny(step.0, n, frames[1..]);
      var later := WriteRun(first.0, frames[1..]);
      var rest := RunPackets(step.0, frames[1..]).1;
      FlatAppend(step.1, rest);
      Associative(first.1, later.1, Fill(later.0.canWrite, 0xFF));
      Associative(first.1, Fill(n, 0xFF), Flat(rest));
      Associative(Fill(left, 0xFF), Flat(step.1), Flat(rest));
    }
  }

  // ----- a stream without its stamp, read ------------------------------------------------------

  /** The payload of the first packet, stuffing included. */
  function Share(m: Mux, e: EsInfo, p: seq<byte>): (q: seq<byte>)
    requires Valid(m) && ValidInfo(e) && e.esSize > 0
    ensures |q| == Opening(m, e).2
  {
    var n := Min(|p|, Opening(m, e).2);
    p[..n] + Fill(Opening(m, e).2 - n, 0xFF)
  }

  /** The header as it is read: completed from the payload. */
  function Arrived(m: Mux, e: EsInfo, p: seq<byte>): TsReader.PesHeader
    requires Valid(m) && ValidInfo(e) && e.esSize > 0
  {
    TsReader.ReadPesHeader(PesHeader(e.pid, e.time, e.compositionOffset, e.esSize) + Share(m, e, p))
  }

  /** What comes of a stream. */
  function Came(m: Mux, e: EsInfo, p: seq<byte>): seq<byte>
    requires Valid(m) && ValidInfo(e) && e.esSize > 0
  {
    if Stamped(e) then p else Arrived(m, e, p).rest + p[Min(|p|, Opening(m, e).2)..]
  }

  function CameStamps(m: Mux, e: EsInfo, p: seq<byte>): seq<(int, nat, nat)>
    requires Valid(m) && ValidInfo(e) && e.esSize > 0
  {
    if Stamped(e) then FrameStamps(e)
    else
      var stamps := Arrived(m, e, p).stamps;
      if stamps.Some? then [(e.pid, stamps.value.0, stamps.value.1)] else []
  }

  /** The stamp is read from the first five bytes of the payload. */
  lemma StampTaken(time: UInt32, compositionOffset: UInt16, q: seq<byte>)
    requires Dts(time) == 0 && |q| >= 5
    ensures var header := TsReader.ReadStamps(if compositionOffset != 0 then 3 else 2, StampsLength(compositionOffset),
                                              TsWriter.Stamps(time, compositionOffset) + q);
      && header.found && header.rest == q[5..] && header.stamps.Some?
      && (header.stamps.value.1 == 0 ==> TsReader.ReadStamp(q) == 0)
  {
    hide Dts, Stamp, TsReader.ReadStamp;
    var stamps := TsWriter.Stamps(time, compositionOffset);
    if compositionOffset != 0 {
      var pts := Pts(time, compositionOffset);
      assert stamps == Stamp(pts) + [] == Stamp(pts);
      assert Drop(stamps + q, 5) == q && Drop(stamps + q, 10) == q[5..];
      PtsBound(time, compositionOffset);
      StampReads(pts, q);
    } else {
      assert stamps == [] && stamps + q == q;
    }
  }

  lemma PtsBound(time: UInt32, compositionOffset: UInt16)
    requires Dts(time) == 0 && compositionOffset != 0
    ensures 0 < Pts(time, compositionOffset) < 0x2_0000_0000
  {
  }

  lemma PesTaken(pid: int, time: UInt32, compositionOffset: UInt16, size: UInt32, q: seq<byte>)
    requires size > 0 && Dts(time) == 0 && |q| >= 5
    ensures var header := TsReader.ReadPesHeader(PesHeader(pid, time, compositionOffset, size) + q);
      && header.found && header.rest == q[5..] && header.stamps.Some?
      && (header.stamps.value.1 == 0 ==> TsReader.ReadStamp(q) == 0)
  {
    hide Dts, Stamp, Be32, Be16, TsReader.ReadStamps, TsReader.ReadPesHeader, TsReader.ReadStamp;
    var length := StampsLength(compositionOffset);
    var total := Wrap32(size + 3 + length);
    var code := if pid < FIRST_AUDIO_PID then 0x1E0 else 0x1C0;
    var flags := if compositionOffset != 0 then 0xC0 else 0x80;
    var stamps := TsWriter.Stamps(time, compositionOffset);
    var short := if total > 0xFFFF then 0 else total;
    StartCode(code, short, flags, length, stamps + q);
    Associative(Be32(code) + Be16(short) + [0x80, flags, length], stamps, q);
    StampTaken(time, compositionOffset, q);
  }

  /** The first packet has room for at most five bytes more than there are. */
  lemma RoomIs(m: Mux, e: EsInfo)
    requires Valid(m) && ValidInfo(e) && e.esSize > 0 && !Stamped(e)
    ensures 6 <= Opening(m, e).2 <= e.esSize + 5
  {
    hide Valid, Prelude, First, MaybePmt, StartFill, Dts;
    FillFits(MaybePmt(m, e.time).0, e.pid, e.time, e.compositionOffset, e.esSize);
    StampsShort(e.time, e.compositionOffset);
  }

  lemma StampsShort(time: UInt32, compositionOffset: UInt16)
    requires Dts(time) == 0
    ensures |TsWriter.Stamps(time, compositionOffset)| == StampsLength(compositionOffset) - 5
  {
    hide Dts;
  }

  lemma ArrivedIs(m: Mux, e: EsInfo, p: seq<byte>)
    requires Valid(m) && ValidInfo(e) && e.esSize > 0 && !Stamped(e)
    ensures var header, q := Arrived(m, e, p), Share(m, e, p);
      && |q| >= 6 && header.found && header.rest == q[5..] && header.stamps.Some?
      && (header.stamps.value.1 == 0 ==> TsReader.ReadStamp(q) == 0)
  {
    hide Valid, Opening, Dts, PesHeader, TsReader.ReadPesHeader, TsReader.ReadStamp;
    RoomIs(m, e);
    PesTaken(e.pid, e.time, e.compositionOffset, e.esSize, Share(m, e, p));
  }

  /** No more comes of a stream than was written. */
  lemma CameLess(m: Mux, e: EsInfo, p: seq<byte>)
    requires Valid(m) && ValidInfo(e) && |p| == e.esSize > 0
    ensures |Came(m, e, p)| <= |p|
    ensures Stamped(e) ==> Came(m, e, p) == p && CameStamps(m, e, p) == FrameStamps(e)
  {
    hide Valid, Opening, Arrived, Stamped;
    if !Stamped(e) {
      ArrivedIs(m, e, p);
      RoomIs(m, e);
    }
  }

  lemma {:induction false} AllOnes(p: seq<byte>, i: nat)
    requires i <= |p| + 5 && (p + Fill(5, 0xFF))[5..] == p
    ensures forall j :: |p| + 5 - i <= j < |p| + 5 ==> (p + Fill(5, 0xFF))[j] == 0xFF
    decreases i
  {
    var q := p + Fill(5, 0xFF);
    if i > 0 {
      AllOnes(p, i - 1);
      var j := |p| + 5 - i;
      if j < |p| {
        assert q[j] == p[j] == q[5..][j] == q[j + 5];
      }
    }
  }

  /** Should all its bytes come, then not its stamp: the bytes are the stuffing's, and so
      is the stamp. */
  lemma NotBoth(m: Mux, e: EsInfo, p: seq<byte>)
    requires Valid(m) && ValidInfo(e) && |p| == e.esSize > 0 && !Stamped(e)
    ensures !(Came(m, e, p) == p && CameStamps(m, e, p) == FrameStamps(e))
  {
    hide Valid, Opening, Arrived, TsReader.ReadStamp, Dts;
    ArrivedIs(m, e, p);
    RoomIs(m, e);
    var room := Opening(m, e).2;
    FrameStampsAre(e);
    if Came(m, e, p) == p && CameStamps(m, e, p) == FrameStamps(e) {
      assert room == |p| + 5;
      assert p[..|p|] == p && p[|p|..] == [];
      var q := Share(m, e, p);
      assert q == p + Fill(5, 0xFF) && q[5..] + [] == q[5..];
      AllOnes(p, |p| + 5);
      OnesStamp(q);
    }
  }

  lemma OnesStamp(q: seq<byte>)
    requires |q| >= 5 && q[0] == q[1] == q[2] == q[3] == q[4] == 0xFF
    ensures TsReader.ReadStamp(q) != 0
  {
  }

  /** A first packet, whatever its header is read as. */
  lemma OpeningRead(m: Mux, d: Demux, e: EsInfo, fill: byte, header: TsReader.PesHeader, q: seq<byte>,
                    first: (Mux, seq<byte>, byte), packet: Packet188)
    requires Synced(m, d) && !m.changed && ValidInfo(e) && e.esSize > 0
    requires HasReader(d, e.pid) && 33 <= e.pid
    requires fill <= 174 - StampsLength(e.compositionOffset)
    requires header == TsReader.ReadPesHeader(PesHeader(e.pid, e.time, e.compositionOffset, e.esSize) + q)
    requires header.found && header.stamps.Some?
    requires Valid(m) && first == First(m, fill, e.pid, e.time, e.compositionOffset, e.randomAccess, e.esSize)
    requires |q| == first.2 && packet == first.1 + q
    ensures Step(d, [packet], first.0, e.pid, header.rest, [(e.pid, header.stamps.value.0, header.stamps.value.1)])
    ensures SameProgram(m, first.0)
    ensures HasReader(After(d, [packet]), e.pid) && !After(d, [packet]).programs[e.pid].waitHeader
  {
    hide Synced, First, TsReader.Packet, TsReader.Packets, TsReader.ReadPesHeader, Valid, Dts, Delivers, Linked, Counter, Count;
    SyncedParts(m, d);
    var pts, dts := header.stamps.value.0, header.stamps.value.1;
    StartRead(m, d, fill, e.pid, e.time, e.compositionOffset, e.randomAccess, e.esSize, header, q);
    FirstKeeps(m, fill, e.pid, e.time, e.compositionOffset, e.randomAccess, e.esSize);
    SeenSynced(m, first.0, d, e.pid);
    OnePacket(d, packet);
    ReadDelivers(e.pid, header.rest);
    TimesDelivers(e.pid, pts, dts);
    DeliversBoth([TsReader.Times(e.pid, pts, dts)], [TsReader.Read(e.pid, header.rest)], e.pid, [], header.rest,
                 [(e.pid, pts, dts)], []);
    assert [] + header.rest == header.rest && [(e.pid, pts, dts)] + [] == [(e.pid, pts, dts)];
  }

  lemma UnstampedFirstRead(m: Mux, d: Demux, e: EsInfo, p: seq<byte>)
    requires Valid(m) && ValidInfo(e) && !Stamped(e) && |p| == e.esSize > 0
    requires var m1 := Prelude(m, e.pid, e.time, e.compositionOffset, e.esSize).0; Synced(m1, d) && !m1.changed
    requires HasReader(d, e.pid) && 33 <= e.pid
    ensures var first := UnstampedFirst(m, e, p);
      Step(d, [first.1], first.0, e.pid, Arrived(m, e, p).rest, CameStamps(m, e, p))
      && SameProgram(Prelude(m, e.pid, e.time, e.compositionOffset, e.esSize).0, first.0)
      && HasReader(After(d, [first.1]), e.pid) && !After(d, [first.1]).programs[e.pid].waitHeader
  {
    hide Synced, Valid, First, Prelude, MaybePmt, StartFill, Step, After, HasReader, Stamped, Arrived, Share;
    ArrivedIs(m, e, p);
    var m1 := Prelude(m, e.pid, e.time, e.compositionOffset, e.esSize).0;
    var fill := StartFill(MaybePmt(m, e.time).0, e.pid, e.time, e.compositionOffset, e.esSize);
    ArrivedReads(m, e, p);
    ShareFills(m, e, p);
    OpeningRead(m1, d, e, fill, Arrived(m, e, p), Share(m, e, p), Opening(m, e), UnstampedFirst(m, e, p).1);
  }

  lemma ArrivedReads(m: Mux, e: EsInfo, p: seq<byte>)
    requires Valid(m) && ValidInfo(e) && e.esSize > 0
    ensures Arrived(m, e, p)
      == TsReader.ReadPesHeader(PesHeader(e.pid, e.time, e.compositionOffset, e.esSize) + Share(m, e, p))
  {
  }

  lemma ShareFills(m: Mux, e: EsInfo, p: seq<byte>)
    requires Valid(m) && ValidInfo(e) && |p| == e.esSize > 0
    ensures UnstampedFirst(m, e, p).1 == Opening(m, e).1 + Share(m, e, p)
  {
    hide Valid, Opening;
  }

  /** The packets of an unstamped stream: what comes of it, to its own pid, nothing lost. */
  lemma UnstampedFrameRead(m: Mux, d: Demux, e: EsInfo, p: seq<byte>, i: nat)
    requires Synced(m, d) && ValidInfo(e) && !Stamped(e) && |p| == e.esSize > 0
    requires i < |TrackStreams(m)| && TrackStreams(m)[i].0 == e.pid
    ensures Valid(m)
    ensures Step(d, UnstampedFrame(m, e, p).1, UnstampedFrame(m, e, p).0, e.pid, Came(m, e, p), CameStamps(m, e, p))
  {
    hide Synced, Step, After, TailPackets, Opening, MaybePmt, MaybeTables, MaybeClock, Valid, Streams, Stamped, StartFill,
      HasReader, PreludePackets, Prelude, Dts, Arrived, Stuffed;
    SyncedParts(m, d);
    PreludeRead(m, d, e, i);
    var prelude := PreludePackets(m, e);
    var m1 := Prelude(m, e.pid, e.time, e.compositionOffset, e.esSize).0;
    var d1 := After(d, prelude);
    StepSynced(d, prelude, m1, e.pid, [], []);
    var first := UnstampedFirst(m, e, p);
    var p2 := p[first.2..];
    var header := Arrived(m, e, p);
    UnstampedFirstRead(m, d1, e, p);
    var d2 := After(d1, [first.1]);
    StepSynced(d1, [first.1], first.0, e.pid, header.rest, CameStamps(m, e, p));
    StepJoin(d, prelude, [first.1], m1, first.0, e.pid, [], header.rest, [], CameStamps(m, e, p));
    SyncedParts(first.0, d2);
    TailStep(first.0, d2, e, p2);
    var tail := TailPackets(first.0, e, p2);
    StepJoin(d, prelude + [first.1], tail.1, first.0, tail.0, e.pid, [] + header.rest, p2, [] + CameStamps(m, e, p), []);
    FrontEmpty(header.rest, p2, CameStamps(m, e, p));
    PreludeIs(m, e);
  }

  lemma FrontEmpty(a: seq<byte>, b: seq<byte>, s: seq<(int, nat, nat)>)
    ensures [] + a + b == a + b && [] + s + [] == s
  {
  }

  lemma PreludeIs(m: Mux, e: EsInfo)
    requires Valid(m) && e.esSize > 0
    ensures PreludePackets(m, e) == MaybeTables(m, e.time) + MaybeClock(MaybePmt(m, e.time).0, e)
  {
  }

  // ----- any run, read ---------------------------------------------------------------------------

  function FrameCame(m: Mux, f: Frame): seq<byte>
    requires Valid(m) && Writable(f)
  {
    if !Sent(m, f) then []
    else
      RegisterValid(m, f);
      InfoValid(f);
      Came(Register(m, f).1, Info(f), Concat(f.chunks))
  }

  function FrameCameStamps(m: Mux, f: Frame): seq<(int, nat, nat)>
    requires Valid(m) && Writable(f)
  {
    if !Sent(m, f) then []
    else
      RegisterValid(m, f);
      InfoValid(f);
      CameStamps(Register(m, f).1, Info(f), Concat(f.chunks))
  }

  /** What comes to `pid` in a run. */
  function RunCame(m: Mux, frames: seq<Frame>, pid: int): seq<byte>
    requires Valid(m) && forall f :: f in frames ==> Writable(f)
    decreases |frames|
  {
    if frames == [] then []
    else
      (if Pid(frames[0]) == pid then FrameCame(m, frames[0]) else [])
      + RunCame(FrameStep(m, frames[0]).0, frames[1..], pid)
  }

  function RunCameStamps(m: Mux, frames: seq<Frame>): seq<(int, nat, nat)>
    requires Valid(m) && forall f :: f in frames ==> Writable(f)
    decreases |frames|
  {
    if frames == [] then [] else FrameCameStamps(m, frames[0]) + RunCameStamps(FrameStep(m, frames[0]).0, frames[1..])
  }

  lemma FrameStepCame(m: Mux, d: Demux, f: Frame)
    requires Synced(m, d) && Writable(f)
    ensures Valid(m)
    ensures Step(d, FrameStep(m, f).1, FrameStep(m, f).0, Pid(f), FrameCame(m, f), FrameCameStamps(m, f))
  {
    hide Synced, Valid, Step, FramePackets, UnstampedFrame, Register, Concat, Stamped, Streams, Arrived, Came, CameStamps, Opening;
    SyncedParts(m, d);
    if !Register(m, f).0 {
      NoPackets(d, m, Pid(f));
    } else {
      var m' := Register(m, f).1;
      RegisterValid(m, f);
      RegisterSynced(m, d, f);
      InfoValid(f);
      if Concat(f.chunks) == [] {
        NoPackets(d, m', Pid(f));
      } else {
        var i :| 0 <= i < |TrackStreams(m')| && TrackStreams(m')[i].0 == Pid(f);
        CameLess(m', Info(f), Concat(f.chunks));
        if Stamped(Info(f)) {
          FrameRead(m', d, Info(f), Concat(f.chunks), i);
        } else {
          UnstampedFrameRead(m', d, Info(f), Concat(f.chunks), i);
        }
      }
    }
  }

  /** Exactly that, and no packet is missed. */
  ghost predicate ComesOf(events: seq<Event>, m: Mux, frames: seq<Frame>)
    requires Valid(m) && forall f :: f in frames ==> Writable(f)
  {
    && Lossless(events)
    && TsRoundTrip.Stamps(events) == RunCameStamps(m, frames)
    && forall q :: Reads(events, q) == RunCame(m, frames, q)
  }

  lemma {:induction false} RunComes(m: Mux, d: Demux, frames: seq<Frame>)
    requires Synced(m, d) && forall f :: f in frames ==> Writable(f)
    ensures Valid(m)
    ensures ComesOf(TsReader.Packets(d, Tails(RunPackets(m, frames).1)).1, m, frames)
    decreases |frames|
  {
    hide Synced, Valid, FrameStep, TsReader.Packets, Tails, FrameCame, FrameCameStamps, Pid, Writable;
    SyncedParts(m, d);
    if frames == [] {
      TsReader.PacketsNone(d);
      assert Tails([]) == [];
    } else {
      FrameStepCame(m, d, frames[0]);
      var first := FrameStep(m, frames[0]);
      var d1 := After(d, first.1);
      RunComes(first.0, d1, frames[1..]);
      var rest := RunPackets(first.0, frames[1..]).1;
      TailsAppend(first.1, rest);
      PacketsAppend(d, Tails(first.1), Tails(rest));
      ComesCons(m, frames, TsReader.Packets(d, Tails(first.1)).1, TsReader.Packets(d1, Tails(rest)).1);
    }
  }

  lemma ComesCons(m: Mux, frames: seq<Frame>, a: seq<Event>, b: seq<Event>)
    requires Valid(m) && frames != [] && forall f :: f in frames ==> Writable(f)
    requires Delivers(a, Pid(frames[0]), FrameCame(m, frames[0]), FrameCameStamps(m, frames[0]))
    requires ComesOf(b, FrameStep(m, frames[0]).0, frames[1..])
    ensures ComesOf(a + b, m, frames)
  {
    hide Valid, FrameStep, FrameCame, FrameCameStamps, Pid, Writable, Reads, TsRoundTrip.Stamps;
    StampsAppend(a, b);
    forall q ensures Reads(a + b, q) == RunCame(m, frames, q) {
      ReadsAppend(a, b, q);
    }
  }

  // ----- what came against what was sent -------------------------------------------------------

  /** Every frame that adds bytes has its stamp written. */
  predicate AllStamped(m: Mux, frames: seq<Frame>)
    requires Valid(m) && forall f :: f in frames ==> Writable(f)
    decreases |frames|
  {
    frames == []
    || ((Sent(m, frames[0]) ==> (frames[0].time + PCR_OFFSET) % 0x8000_0000 != 0)
        && AllStamped(FrameStep(m, frames[0]).0, frames[1..]))
  }

  /** The bytes and stamps sent of one frame. */
  function FrameSent(m: Mux, f: Frame): seq<byte>
  {
    if Sent(m, f) then Concat(f.chunks) else []
  }

  function FrameSentStamps(m: Mux, f: Frame): seq<(int, nat, nat)>
  {
    if Sent(m, f) then StampsOf(f) else []
  }

  lemma FrameAgainst(m: Mux, f: Frame)
    requires Valid(m) && Writable(f)
    ensures |FrameCame(m, f)| <= |FrameSent(m, f)|
    ensures FrameCame(m, f) == FrameSent(m, f) && FrameCameStamps(m, f) == FrameSentStamps(m, f)
      <==> (Sent(m, f) ==> (f.time + PCR_OFFSET) % 0x8000_0000 != 0)
    ensures |FrameCameStamps(m, f)| == |FrameSentStamps(m, f)|
  {
    hide Valid, Register, Concat, Stamped, Came, CameStamps;
    if Sent(m, f) {
      RegisterValid(m, f);
      InfoValid(f);
      var m', e, p := Register(m, f).1, Info(f), Concat(f.chunks);
      StampedExactly(e);
      CameLess(m', e, p);
      OneStamp(m', e, p);
      assert FrameStamps(e) == StampsOf(f);
      if !Stamped(e) {
        NotBoth(m', e, p);
      }
    }
  }

  lemma OneStamp(m: Mux, e: EsInfo, p: seq<byte>)
    requires Valid(m) && ValidInfo(e) && |p| == e.esSize > 0
    ensures |CameStamps(m, e, p)| == 1
  {
    hide Valid, Stamped, Arrived, Opening;
    if !Stamped(e) {
      ArrivedIs(m, e, p);
    }
  }

  lemma {:induction false} RunLess(m: Mux, frames: seq<Frame>, pid: int)
    requires Valid(m) && forall f :: f in frames ==> Writable(f)
    ensures |RunCame(m, frames, pid)| <= |SentBytes(m, frames, pid)|
    decreases |frames|
  {
    hide Valid, FrameStep, FrameCame, Concat, Sent, Pid;
    if frames != [] {
      FrameAgainst(m, frames[0]);
      RunLess(FrameStep(m, frames[0]).0, frames[1..], pid);
    }
  }

  lemma {:induction false} AllCame(m: Mux, frames: seq<Frame>, pid: int)
    requires Valid(m) && (forall f :: f in frames ==> Writable(f)) && AllStamped(m, frames)
    ensures RunCame(m, frames, pid) == SentBytes(m, frames, pid)
    ensures RunCameStamps(m, frames) == SentStamps(m, frames)
    decreases |frames|
  {
    hide Valid, FrameStep, FrameCame, FrameCameStamps, Concat, Sent, Pid, StampsOf;
    if frames != [] {
      FrameAgainst(m, frames[0]);
      AllCame(FrameStep(m, frames[0]).0, frames[1..], pid);
    }
  }

  /** If all bytes come, and the stamps sent are the first that come, every stamp was written. */
  lemma {:induction false} CameOnlyStamped(m: Mux, frames: seq<Frame>)
    requires Valid(m) && forall f :: f in frames ==> Writable(f)
    requires forall q :: RunCame(m, frames, q) == SentBytes(m, frames, q)
    requires RunCameStamps(m, frames) == SentStamps(m, frames)
    ensures AllStamped(m, frames)
    decreases |frames|
  {
    hide Valid, FrameStep, FrameCame, FrameCameStamps, Concat, Sent, Pid, StampsOf;
    if frames != [] {
      var f, m', rest := frames[0], FrameStep(m, frames[0]).0, frames[1..];
      FrameAgainst(m, f);
      RunLess(m', rest, Pid(f));
      assert RunCame(m, frames, Pid(f)) == FrameCame(m, f) + RunCame(m', rest, Pid(f));
      assert SentBytes(m, frames, Pid(f)) == FrameSent(m, f) + SentBytes(m', rest, Pid(f));
      SameFront(FrameCame(m, f), RunCame(m', rest, Pid(f)), FrameSent(m, f), SentBytes(m', rest, Pid(f)));
      SameFrontStamps(FrameCameStamps(m, f), RunCameStamps(m', rest), FrameSentStamps(m, f), SentStamps(m', rest));
      forall q ensures RunCame(m', rest, q) == SentBytes(m', rest, q) {
        if q != Pid(f) {
          assert RunCame(m, frames, q) == [] + RunCame(m', rest, q) == RunCame(m', rest, q);
          assert SentBytes(m, frames, q) == [] + SentBytes(m', rest, q) == SentBytes(m', rest, q);
        }
      }
      CameOnlyStamped(m', rest);
    }
  }

  lemma SameFront(a: seq<byte>, b: seq<byte>, c: seq<byte>, d: seq<byte>)
    requires a + b == c + d && |a| <= |c| && |b| <= |d|
    ensures a == c && b == d
  {
    assert |a + b| == |c + d|;
    assert a == (a + b)[..|a|] && c == (c + d)[..|c|];
    assert b == (a + b)[|a|..] && d == (c + d)[|c|..];
  }

  lemma SameFrontStamps(a: seq<(int, nat, nat)>, b: seq<(int, nat, nat)>, c: seq<(int, nat, nat)>, d: seq<(int, nat, nat)>)
    requires a + b == c + d && |a| == |c|
    ensures a == c && b == d
  {
    assert a == (a + b)[..|a|] && c == (c + d)[..|c|];
    assert b == (a + b)[|a|..] && d == (c + d)[|c|..];
  }

  lemma {:induction false} StampCounts(m: Mux, frames: seq<Frame>)
    requires Valid(m) && forall f :: f in frames ==> Writable(f)
    ensures |RunCameStamps(m, frames)| == |SentStamps(m, frames)|
    decreases |frames|
  {
    hide Valid, FrameStep, FrameCameStamps, Concat, Sent, StampsOf;
    if frames != [] {
      FrameAgainst(m, frames[0]);
      StampCounts(FrameStep(m, frames[0]).0, frames[1..]);
    }
  }

  // ----- exactly -----------------------------------------------------------------------------------

  /** The packets found in a run's bytes, and what a last one left unfinished would add. */
  lemma FoundPackets(ps: seq<Packet188>, bytes: seq<byte>, left: byte) returns (more: seq<seq<byte>>)
    requires bytes + Fill(left, 0xFF) == Flat(ps) && left < 188
    ensures Tails(ps) == TsReader.Split(false, bytes).packets + more
    ensures left == 0 ==> more == []
  {
    hide TsReader.Split;
    SplitFlat(ps);
    TsReader.SplitAnywhere(false, bytes, Fill(left, 0xFF));
    var c := TsReader.Split(false, bytes);
    assert [] + bytes == bytes;
    more := TsReader.Split(c.sync, c.rest + Fill(left, 0xFF)).packets;
    if left == 0 {
      assert Fill(0, 0xFF) == [] && bytes + [] == bytes;
      assert c.packets + [] == c.packets;
      more := [];
    }
  }

  lemma {:induction false} LeftBound(m: Mux, left: byte, frames: seq<Frame>)
    requires Valid(m) && (forall f :: f in frames ==> Writable(f)) && left < 188
    ensures WriteRun(Writer(m, left, 0), frames).0.canWrite < 188
    ensures AllStamped(m, frames) && left == 0 ==> WriteRun(Writer(m, left, 0), frames).0.canWrite == 0
    decreases |frames|
  {
    hide Valid, FrameStep, WriteFrame, Writable, Sent;
    if frames != [] {
      LeftOne(m, left, frames[0]);
      WriteAny(m, left, frames[0]);
      LeftBound(FrameStep(m, frames[0]).0, WriteFrame(Writer(m, left, 0), frames[0]).0.canWrite, frames[1..]);
    }
  }

  lemma LeftOne(m: Mux, left: byte, f: Frame)
    requires Valid(m) && Writable(f) && left < 188
    ensures WriteFrame(Writer(m, left, 0), f).0.canWrite < 188
    ensures left == 0 && (Sent(m, f) ==> (f.time + PCR_OFFSET) % 0x8000_0000 != 0)
      ==> WriteFrame(Writer(m, left, 0), f).0.canWrite == 0
  {
    hide Valid, Es, EsCalls, Register, Concat, Stamped, FramePackets, UnstampedFrame, Opening;
    WriteAny(m, left, f);
    if Sent(m, f) {
      RegisterValid(m, f);
      InfoValid(f);
      var m1, e, p := Register(m, f).1, Info(f), Concat(f.chunks);
      StampedExactly(e);
      EsCallsAny(Writer(m1, left, 0), e, f.chunks);
      EsAfter(m1, left, e, p);
      if Stamped(e) {
        EsIsPackets(m1, e, p);
      } else {
        EsUnstamped(m1, e, p);
      }
    }
  }

  /** A run of any frames, in any chunks, delivers everything, every byte and every stamp,
      if and only if every frame that is sent has its stamp written. */
  lemma RunLosslessExactly(m: Mux, frames: seq<Frame>, chunks: seq<seq<byte>>)
    requires Valid(m) && forall f :: f in frames ==> Writable(f)
    requires Concat(chunks) == WriteRun(Writer(Begun(m), 0, 0), frames).1
    ensures Valid(Begun(m))
    ensures DeliversRun(TsReader.FeedAll(START, chunks).1, Begun(m), frames) <==> AllStamped(Begun(m), frames)
  {
    hide Valid, WriteRun, RunPackets, Writable, TsReader.FeedAll, TsReader.Packets, TsReader.Split, Concat, Reads,
      TsRoundTrip.Stamps, Flat, Tails, AllStamped, RunCame, RunCameStamps, SentBytes, SentStamps;
    var begun := Begun(m);
    BegunValid(m);
    SyncedFirst(begun);
    var ps := RunPackets(begun, frames).1;
    var out := WriteRun(Writer(begun, 0, 0), frames);
    RunAny(begun, 0, frames);
    assert Fill(0, 0xFF) == [] && [] + Flat(ps) == Flat(ps);
    LeftBound(begun, 0, frames);
    var more := FoundPackets(ps, out.1, out.0.canWrite);
    var found := TsReader.Split(false, out.1).packets;
    FeedAllSplit(START, chunks);
    assert [] + Concat(chunks) == Concat(chunks);
    RunComes(begun, TsReader.EMPTY, frames);
    PacketsAppend(TsReader.EMPTY, found, more);
    var d := TsReader.Packets(TsReader.EMPTY, found);
    Against(begun, frames, d.1, TsReader.Packets(d.0, more).1);
    if AllStamped(begun, frames) {
      assert found + [] == found;
      TsReader.PacketsNone(d.0);
      assert d.1 + [] == d.1;
    }
  }

  /** The events there are, and those that an unfinished packet would add. */
  lemma Against(m: Mux, frames: seq<Frame>, events: seq<Event>, more: seq<Event>)
    requires Valid(m) && (forall f :: f in frames ==> Writable(f)) && ComesOf(events + more, m, frames)
    ensures DeliversRun(events, m, frames) ==> AllStamped(m, frames)
    ensures AllStamped(m, frames) && more == [] ==> DeliversRun(events, m, frames)
  {
    hide Valid, Writable, Reads, TsRoundTrip.Stamps, AllStamped, RunCame, RunCameStamps, SentBytes, SentStamps;
    StampsAppend(events, more);
    StampCounts(m, frames);
    if DeliversRun(events, m, frames) {
      forall q ensures RunCame(m, frames, q) == SentBytes(m, frames, q) {
        ReadsAppend(events, more, q);
        RunLess(m, frames, q);
        Shorter(Reads(events, q), Reads(more, q), SentBytes(m, frames, q));
      }
      SameFrontStamps(TsRoundTrip.Stamps(events), TsRoundTrip.Stamps(more), SentStamps(m, frames), []);
      CameOnlyStamped(m, frames);
    }
    if AllStamped(m, frames) && more == [] {
      assert events + more == events;
      forall q ensures Reads(events, q) == SentBytes(m, frames, q) {
        AllCame(m, frames, q);
      }
      AllCame(m, frames, 0);
    }
  }

  lemma Shorter(a: seq<byte>, b: seq<byte>, c: seq<byte>)
    requires a == c && |a + b| <= |c|
    ensures a + b == c
  {
    assert b == [];
    assert a + [] == a;
  }
}
