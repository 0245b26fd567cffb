/** The two times of the clock at which TSWriter leaves its stamp out, and what
    becomes of the stream then: the exact condition of a lossless frame. */
module TsStamps {
  import opened Bytes
  import opened Options
  import opened TsWriter
  import opened TsPackets
  import opened TsReading
  import opened TsRoundTrip
  import opened TsSession
  import TsReader

  /** A header that declares stamps it does not hold is completed from the payload. */
  lemma UnstampedRead(pid: int, time: UInt32, compositionOffset: UInt16, size: UInt32, payload: seq<byte>)
    requires size > 0 && Dts(time) == 0 && payload != []
    ensures var header := TsReader.ReadPesHeader(PesHeader(pid, time, compositionOffset, size) + payload);
      header.found && |header.rest| < |payload|
  {
    hide Dts, Stamp, Be32, Be16, TsReader.ReadStamps, TsReader.ReadPesHeader;
    var length := StampsLength(compositionOffset);
    var total := Wrap32(size + 3 + length);
    var code := if pid < FIRST_AUDIO_PID then 0x1E0 else 0x1C0;
    var flags := if compositionOffset != 0 then 0xC0 else 0x80;
    var stamps := TsWriter.Stamps(time, compositionOffset);
    var short := if total > 0xFFFF then 0 else total;
    StartCode(code, short, flags, length, stamps + payload);
    Associative(Be32(code) + Be16(short) + [0x80, flags, length], stamps, payload);
    LostToStamps(time, compositionOffset, payload);
  }

  lemma LostToStamps(time: UInt32, compositionOffset: UInt16, payload: seq<byte>)
    requires Dts(time) == 0 && payload != []
    ensures var header := TsReader.ReadStamps(if compositionOffset != 0 then 3 else 2, StampsLength(compositionOffset),
                                              TsWriter.Stamps(time, compositionOffset) + payload);
      header.found && |header.rest| < |payload|
  {
    hide Dts, Stamp, TsReader.ReadStamp;
  }

  lemma FewerRead(m: Mux, d: Demux, e: EsInfo, fill: byte, p: seq<byte>)
    requires Synced(m, d) && !m.changed && ValidInfo(e) && !Stamped(e) && e.esSize > 0
    requires HasReader(d, e.pid) && 33 <= e.pid
    requires fill <= 174 - StampsLength(e.compositionOffset)
    ensures var first := First(m, fill, e.pid, e.time, e.compositionOffset, e.randomAccess, e.esSize);
      |p| == first.2 ==>
        var d1 := After(d, [first.1 + p]);
        Synced(first.0, d1) && SameProgram(m, first.0)
        && |Reads(TsReader.Packets(d, Tails([first.1 + p])).1, e.pid)| < |p|
        && HasReader(d1, e.pid) && !d1.programs[e.pid].waitHeader
  {
    hide Synced, First, TsReader.Packet, TsReader.Packets, TsReader.ReadPesHeader, Valid, Dts, Linked, Counter, Count, Reads;
    SyncedParts(m, d);
    var first := First(m, fill, e.pid, e.time, e.compositionOffset, e.randomAccess, e.esSize);
    if |p| == first.2 {
      UnstampedRead(e.pid, e.time, e.compositionOffset, e.esSize, p);
      var header := TsReader.ReadPesHeader(PesHeader(e.pid, e.time, e.compositionOffset, e.esSize) + p);
      StartRead(m, d, fill, e.pid, e.time, e.compositionOffset, e.randomAccess, e.esSize, header, p);
      FirstKeeps(m, fill, e.pid, e.time, e.compositionOffset, e.randomAccess, e.esSize);
      SeenSynced(m, first.0, d, e.pid);
      OnePacket(d, first.1 + p);
      ReadOne(e.pid, header.stamps, header.rest);
    }
  }

  lemma ReadOne(pid: int, stamps: Option<(nat, nat)>, data: seq<byte>)
    ensures Reads((if stamps.Some? then [TsReader.Times(pid, stamps.value.0, stamps.value.1)] else [])
                  + [TsReader.Read(pid, data)], pid) == data
  {
    var times := if stamps.Some? then [TsReader.Times(pid, stamps.value.0, stamps.value.1)] else [];
    ReadsAppend(times, [TsReader.Read(pid, data)], pid);
    assert Reads([], pid) == [];
    assert [] + data == data && data + [] == data;
  }

  /** How a stream begins: tables and clock, the first header, its share of payload. */
  lemma EsOpens(m: Mux, e: EsInfo, p: seq<byte>)
    requires Valid(m) && ValidInfo(e) && |p| == e.esSize > 0
    ensures var first := Start(m, e.pid, e.time, e.compositionOffset, e.randomAccess, e.esSize);
      var n := Min(|p|, first.2);
      Es(Writer(m, 0, 0), e, p).1 == first.1 + p[..n] + Es(Writer(first.0, first.2 - n, |p| - n), e, p[n..]).1
  {
    hide Valid, Es, Start, Prepare;
    PrepareStart(m, e);
    EsUnfold(Writer(m, 0, 0), e, p);
  }

  lemma PrepareStart(m: Mux, e: EsInfo)
    requires Valid(m) && ValidInfo(e) && e.esSize > 0
    ensures var first := Start(m, e.pid, e.time, e.compositionOffset, e.randomAccess, e.esSize);
      Prepare(Writer(m, 0, 0), e) == (Writer(first.0, first.2, e.esSize), first.1)
  {
    hide Valid, Start;
    assert Fill(0, 0xFF) == [];
    var first := Start(m, e.pid, e.time, e.compositionOffset, e.randomAccess, e.esSize);
    assert [] + first.1 == first.1;
  }

  /** The bytes of the unstamped first packet, behind `prelude`. */
  lemma StartIs(m: Mux, e: EsInfo)
    requires Valid(m) && ValidInfo(e) && e.esSize > 0
    ensures var m1 := Prelude(m, e.pid, e.time, e.compositionOffset, e.esSize).0;
      var fill := StartFill(MaybePmt(m, e.time).0, e.pid, e.time, e.compositionOffset, e.esSize);
      var first := First(m1, fill, e.pid, e.time, e.compositionOffset, e.randomAccess, e.esSize);
      Start(m, e.pid, e.time, e.compositionOffset, e.randomAccess, e.esSize)
        == (first.0, Flat(PreludePackets(m, e)) + first.1, first.2)
  {
    hide Valid, Prelude, First, MaybePmt, MaybeTables, MaybeClock, StartFill;
    PreludeIsPackets(m, e);
    FlatAppend(MaybeTables(m, e.time), MaybeClock(MaybePmt(m, e.time).0, e));
  }

  /** Bytes that do not fill a packet are not read. */
  lemma PartialUnread(ps: seq<Packet188>, part: seq<byte>)
    requires 0 < |part| < 188 && part[0] == 0x47
    ensures TsReader.Split(false, Flat(ps) + part).packets == Tails(ps)
  {
    hide TsReader.Split;
    SplitFlat(ps);
    TsReader.SplitAnywhere(false, Flat(ps), part);
    assert [] + part == part;
    TsReader.SplitByte(part);
    TsReader.SplitShort(true, part[1..]);
    assert Tails(ps) + [] == Tails(ps);
  }

  /** Without its stamp no frame comes through whole: it stops short of its packet's
      end, or loses to the reader the bytes read for the stamp. */
  lemma UnstampedLoses(m: Mux, d: Demux, e: EsInfo, p: seq<byte>, i: nat)
    requires Synced(m, d) && ValidInfo(e) && !Stamped(e) && |p| == e.esSize > 0
    requires i < |TrackStreams(m)| && TrackStreams(m)[i].0 == e.pid
    ensures Valid(m)
    ensures |Reads(TsReader.Packets(d, TsReader.Split(false, Es(Writer(m, 0, 0), e, p).1).packets).1, e.pid)| < |p|
  {
    hide Synced, Valid, Es, Prelude, First, StartFill, MaybePmt, PreludePackets, Start, Reads, TsReader.Packets,
      TsReader.Split, Streams, HasReader, Tails, Flat, After, Delivers;
    SyncedParts(m, d);
    PreludeRead(m, d, e, i);
    var prelude := PreludePackets(m, e);
    var m1 := Prelude(m, e.pid, e.time, e.compositionOffset, e.esSize).0;
    var fill := StartFill(MaybePmt(m, e.time).0, e.pid, e.time, e.compositionOffset, e.esSize);
    var first := First(m1, fill, e.pid, e.time, e.compositionOffset, e.randomAccess, e.esSize);
    StartIs(m, e);
    EsOpens(m, e, p);
    PreludeUnread(d, prelude, m1, e.pid);
    if |p| < first.2 {
      assert p[..|p|] == p && p[|p|..] == [];
      EsNothing(Writer(first.0, first.2 - |p|, 0), e);
      Associative(Flat(prelude), first.1, p);
      assert Es(Writer(m, 0, 0), e, p).1 == Flat(prelude) + (first.1 + p);
      PartialUnread(prelude, first.1 + p);
    } else {
      UnstampedWhole(m1, After(d, prelude), e, fill, p);
      UnstampedJoin(m, d, e, fill, p, m1);
    }
  }

  lemma PreludeUnread(d: Demux, ps: seq<Packet188>, m: Mux, pid: int)
    requires Step(d, ps, m, pid, [], [])
    ensures Reads(TsReader.Packets(d, Tails(ps)).1, pid) == []
    ensures Synced(m, After(d, ps))
  {
    hide Synced, Reads, TsReader.Packets, Tails;
  }

  /** The first packet and those behind it. */
  function UnstampedPackets(m: Mux, e: EsInfo, fill: byte, p: seq<byte>): (ps: seq<Packet188>)
    requires ValidInfo(e) && fill <= 174 - StampsLength(e.compositionOffset) && |p| == e.esSize > 0
    requires |p| >= First(m, fill, e.pid, e.time, e.compositionOffset, e.randomAccess, e.esSize).2
    requires Valid(First(m, fill, e.pid, e.time, e.compositionOffset, e.randomAccess, e.esSize).0)
  {
    var first := First(m, fill, e.pid, e.time, e.compositionOffset, e.randomAccess, e.esSize);
    [first.1 + p[..first.2]] + TailPackets(first.0, e, p[first.2..]).1
  }

  lemma UnstampedWhole(m: Mux, d: Demux, e: EsInfo, fill: byte, p: seq<byte>)
    requires Synced(m, d) && !m.changed && ValidInfo(e) && !Stamped(e) && |p| == e.esSize > 0
    requires HasReader(d, e.pid) && 33 <= e.pid
    requires fill <= 174 - StampsLength(e.compositionOffset)
    requires |p| >= First(m, fill, e.pid, e.time, e.compositionOffset, e.randomAccess, e.esSize).2
    ensures Valid(First(m, fill, e.pid, e.time, e.compositionOffset, e.randomAccess, e.esSize).0)
    ensures |Reads(TsReader.Packets(d, Tails(UnstampedPackets(m, e, fill, p))).1, e.pid)| < |p|
  {
    hide Synced, Valid, First, Reads, TsReader.Packets, HasReader, Tails, TailPackets, After, Delivers;
    var first := First(m, fill, e.pid, e.time, e.compositionOffset, e.randomAccess, e.esSize);
    var p1, p2 := p[..first.2], p[first.2..];
    FewerRead(m, d, e, fill, p1);
    var d1 := After(d, [first.1 + p1]);
    SyncedParts(first.0, d1);
    SameTracks(m, first.0);
    TailStep(first.0, d1, e, p2);
    var tail := TailPackets(first.0, e, p2);
    StepDelivered(d1, tail.1, tail.0, e.pid, p2);
    TailsAppend([first.1 + p1], tail.1);
    PacketsAppend(d, Tails([first.1 + p1]), Tails(tail.1));
    AfterIs(d, [first.1 + p1]);
    ReadsAppend(TsReader.Packets(d, Tails([first.1 + p1])).1, TsReader.Packets(d1, Tails(tail.1)).1, e.pid);
  }

  lemma AfterIs(d: Demux, ps: seq<Packet188>)
    ensures After(d, ps) == TsReader.Packets(d, Tails(ps)).0
  {
  }

  lemma StepDelivered(d: Demux, ps: seq<Packet188>, m: Mux, pid: int, data: seq<byte>)
    requires Step(d, ps, m, pid, data, [])
    ensures Reads(TsReader.Packets(d, Tails(ps)).1, pid) == data
  {
    hide Synced, Reads, TsReader.Packets, Tails;
  }

  lemma UnstampedJoin(m: Mux, d: Demux, e: EsInfo, fill: byte, p: seq<byte>, m1: Mux)
    requires Valid(m) && ValidInfo(e) && |p| == e.esSize > 0
    requires m1 == Prelude(m, e.pid, e.time, e.compositionOffset, e.esSize).0
    requires fill == StartFill(MaybePmt(m, e.time).0, e.pid, e.time, e.compositionOffset, e.esSize)
    requires |p| >= First(m1, fill, e.pid, e.time, e.compositionOffset, e.randomAccess, e.esSize).2
    requires Valid(First(m1, fill, e.pid, e.time, e.compositionOffset, e.randomAccess, e.esSize).0)
    ensures var ps := UnstampedPackets(m1, e, fill, p);
      var prelude := PreludePackets(m, e);
      TsReader.Split(false, Es(Writer(m, 0, 0), e, p).1).packets == Tails(prelude) + Tails(ps)
      && Reads(TsReader.Packets(d, Tails(prelude) + Tails(ps)).1, e.pid)
        == Reads(TsReader.Packets(d, Tails(prelude)).1, e.pid) + Reads(TsReader.Packets(After(d, prelude), Tails(ps)).1, e.pid)
  {
    hide Valid, Es, Prelude, First, StartFill, MaybePmt, PreludePackets, Start, Reads, TsReader.Packets,
      TsReader.Split, Tails, Flat, TailPackets;
    var first := First(m1, fill, e.pid, e.time, e.compositionOffset, e.randomAccess, e.esSize);
    var prelude := PreludePackets(m, e);
    var ps := UnstampedPackets(m1, e, fill, p);
    var tail := TailPackets(first.0, e, p[first.2..]).1;
    StartIs(m, e);
    EsOpens(m, e, p);
    TailIsPackets(Writer(first.0, 0, |p| - first.2), e, p[first.2..]);
    Associative(Flat(prelude), first.1, p[..first.2]);
    FlatCons(first.1 + p[..first.2], tail);
    Associative(Flat(prelude), first.1 + p[..first.2], Flat(tail));
    FlatAppend(prelude, ps);
    assert Es(Writer(m, 0, 0), e, p).1 == Flat(prelude + ps);
    SplitFlat(prelude + ps);
    TailsAppend(prelude, ps);
    PacketsAppend(d, Tails(prelude), Tails(ps));
    AfterIs(d, prelude);
    ReadsAppend(TsReader.Packets(d, Tails(prelude)).1, TsReader.Packets(After(d, prelude), Tails(ps)).1, e.pid);
  }

  /** A program's first frame comes through whole exactly if its stamp is written. */
  lemma LosslessExactly(m: Mux, e: EsInfo, p: seq<byte>, i: nat, chunks: seq<seq<byte>>)
    requires Valid(m) && m.changed && ValidInfo(e) && |p| == e.esSize > 0
    requires i < |TrackStreams(m)| && TrackStreams(m)[i].0 == e.pid
    requires Concat(chunks) == Es(Writer(m, 0, 0), e, p).1
    ensures Reads(TsReader.FeedAll(START, chunks).1, e.pid) == p <==> (e.time + PCR_OFFSET) % 0x8000_0000 != 0
  {
    hide Valid, Es, TsReader.FeedAll, TsReader.Packets, TsReader.Split, Concat, Reads, FramePackets, Streams, Flat, Tails, Stamped;
    StampedExactly(e);
    SyncedFirst(m);
    FeedAllSplit(START, chunks);
    assert [] + Concat(chunks) == Concat(chunks);
    if Stamped(e) {
      EsIsPackets(m, e, p);
      var frame := FramePackets(m, e, p);
      SplitFlat(frame.1);
      FrameRead(m, TsReader.EMPTY, e, p, i);
      FrameDelivered(TsReader.EMPTY, frame.1, frame.0, e, p);
    } else {
      UnstampedLoses(m, TsReader.EMPTY, e, p, i);
    }
  }

  lemma FrameDelivered(d: Demux, ps: seq<Packet188>, m: Mux, e: EsInfo, p: seq<byte>)
    requires Step(d, ps, m, e.pid, p, FrameStamps(e))
    ensures Reads(TsReader.Packets(d, Tails(ps)).1, e.pid) == p
  {
    hide Synced, Reads, TsReader.Packets, Tails;
  }
}
