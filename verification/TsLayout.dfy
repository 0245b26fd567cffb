/** What TSWriter writes, as the standard lays it out, and how often its tables. */
module TsLayout {
  import opened Bytes
  import opened TsWriter
  import opened TsPackets
  import opened TsReading
  import opened TsRoundTrip
  import opened TsSession
  import opened TsExactly
  import opened TsClock
  import opened TsCounters
  import T = TsTables

  // ----- tables as those of any multiplexer ---------------------------------------------------

  /** The association packet: one program, number 1, its map at pid 32; version 0. */
  lemma PatIsStandard(counter: byte)
    ensures PatPacket(counter) == [0x47, 0x60, 0, 0x10 + counter % 16]
      + T.Pointed([], T.Section(0, T.PatBody([0, 1, 0xC1, 0, 0], [(1, 32)], Crc(PAT_SECTION)), Fill(167, 0xFF)))
  {
    hide Crc, Be32, T.PatBody, T.Associations;
    PatBodyIs(Crc(PAT_SECTION));
    assert Be16(0xB00D) == [0xB0, 0x0D];
  }

  lemma PatBodyIs(crc: UInt32)
    ensures T.PatBody([0, 1, 0xC1, 0, 0], [(1, 32)], crc) == [0, 1, 0xC1, 0, 0, 0, 1, 0xE0, 0x20] + Be32(crc)
  {
    hide Be32;
    assert T.Associations([(1, 32)]) == T.Association((1, 32)) + [];
    assert Be16(1) == [0, 1] && Be16(0xE020) == [0xE0, 0x20];
  }

  /** The streams of a map, with nothing told of them. */
  function StreamsOf(s: seq<(int, byte)>): (xs: seq<T.Stream>)
    requires forall i :: 0 <= i < |s| ==> 0 <= s[i].0 < 0x2000
    ensures |xs| == |s| && T.AreStreams(xs)
  {
    seq(|s|, i requires 0 <= i < |s| => T.Stream(s[i].1, s[i].0, []))
  }

  lemma {:induction false} EntriesAreStreams(s: seq<(int, byte)>)
    requires forall i :: 0 <= i < |s| ==> 0 <= s[i].0 < 0x2000
    ensures Entries(s) == T.AllStreams(StreamsOf(s))
    decreases |s|
  {
    hide Be16;
    if s != [] {
      EntriesAreStreams(s[1..]);
      assert StreamsOf(s)[1..] == StreamsOf(s[1..]);
      assert Entry(s[0]) == T.StreamBytes(StreamsOf(s)[0]);
    }
  }

  /** The body of the map, sealed. */
  function MapBody(version: byte, s: seq<(int, byte)>, crc: UInt32): (r: seq<byte>)
    requires s != [] && forall i :: 0 <= i < |s| ==> 0 <= s[i].0 < 0x1FFF
  {
    T.PmtBody([0, 1, 0, 0], version % 32, true, Be16(0xE000 + s[0].0), [], StreamsOf(s), Be32(crc))
  }

  /** The map packet: program 1, the version on five bits, the first track's pid for the
      clock, nothing told of the program, and the tracks. */
  lemma {:induction false} PmtIsStandard(counter: byte, version: byte, s: seq<(int, byte)>)
    requires 0 < |s| <= MAX_TRACKS && forall i :: 0 <= i < |s| ==> 0 <= s[i].0 < 0x1FFF
    ensures var crc := Crc(PmtSection(version, s));
      var body := MapBody(version, s, crc);
      |body| < 0x400
      && PmtPacket(counter, version, s)
         == [0x47, 0x60, 0x20, 0x10 + counter % 16] + T.Pointed([], T.Section(2, body, Fill(179 - |PmtSection(version, s)|, 0xFF)))
  {
    var crc := Crc(PmtSection(version, s));
    MapBodyIs(version, s, crc);
    PacketIs(counter, version, s);
    hide *;
    Wrapped([0x47, 0x60, 0x20, 0x10 + counter % 16], PmtBody(version, s), Be32(crc), Fill(179 - |PmtSection(version, s)|, 0xFF));
  }

  lemma {:induction false} MapBodyIs(version: byte, s: seq<(int, byte)>, crc: UInt32)
    requires s != [] && forall i :: 0 <= i < |s| ==> 0 <= s[i].0 < 0x1FFF
    ensures MapBody(version, s, crc) == PmtBody(version, s) + Be32(crc)
  {
    hide Be32, PmtBody, Entries, T.AllStreams;
    EntriesAreStreams(s);
    BodyIs(version, s, Be32(crc));
  }

  lemma PacketIs(counter: byte, version: byte, s: seq<(int, byte)>)
    requires 0 < |s| <= MAX_TRACKS
    ensures var section, body := PmtSection(version, s), PmtBody(version, s);
      && |body| + 4 < 0x400 && |section| <= 179
      && PmtPacket(counter, version, s)
         == [0x47, 0x60, 0x20, 0x10 + counter % 16] + [0] + ([2] + Be16(0xB000 + |body| + 4) + body) + Be32(Crc(section))
            + Fill(179 - |section|, 0xFF)
  {
    hide Crc, Be32, Be16, PmtBody, Fill;
    var head := [0x47, 0x60, 0x20, 0x10 + counter % 16];
    assert head + [0] == [0x47, 0x60, 0x20, 0x10 + counter % 16, 0];
    assert (|PmtBody(version, s)| + 4) % 0x400 == |PmtBody(version, s)| + 4;
  }

  lemma Wrapped(head: seq<byte>, body: seq<byte>, crc: seq<byte>, filled: seq<byte>)
    requires |crc| == 4 && |body| + 4 < 0x400
    ensures head + [0] + ([2] + Be16(0xB000 + |body| + 4) + body) + crc + filled
      == head + T.Pointed([], T.Section(2, body + crc, filled))
  {
    hide Be16;
    var length := Be16(0xB000 + |body| + 4);
    assert T.Pointed([], T.Section(2, body + crc, filled)) == [0] + ([] + ([2] + (length + (body + crc + filled))));
  }

  lemma {:induction false} BodyIs(version: byte, s: seq<(int, byte)>, crc: seq<byte>)
    requires s != [] && forall i :: 0 <= i < |s| ==> 0 <= s[i].0 < 0x2000
    requires Entries(s) == T.AllStreams(StreamsOf(s))
    ensures T.PmtBody([0, 1, 0, 0], version % 32, true, Be16(0xE000 + s[0].0), [], StreamsOf(s), crc) == PmtBody(version, s) + crc
  {
    hide Entries, T.AllStreams;
    assert Be16(1) == [0, 1] && Be16(0) == [0, 0];
    hide Be16;
    var entries := Entries(s);
    var clock, info := Be16(0xE000 + s[0].0), Be16(0xF000);
    assert [0, 1, 0, 0][..2] == [0, 1] && [0, 1, 0, 0][2..] == [0, 0];
    assert [0, 1] + ([0xC1 + version % 32 * 2] + ([0, 0] + (clock + (info + ([] + (entries + crc))))))
      == [0, 1] + [0xC1 + version % 32 * 2] + [0, 0] + (clock + info) + entries + crc;
  }

  // ----- PES headers -------------------------------------------------------------------------------

  /** Start code and stream id, 0xE0 for video and 0xC0 for audio; how many bytes follow, 0 if
      they do not fit; which stamps, and how long they are. The size counts the stamps as if
      they were there. */
  lemma PesLayout(pid: int, time: UInt32, compositionOffset: UInt16, size: UInt32)
    requires 0 < size < U32 - 13
    ensures var h := PesHeader(pid, time, compositionOffset, size);
      var length := if compositionOffset == 0 then 5 else 10;
      && |h| >= 9 && h[..4] == [0, 0, 1, if pid < 256 then 0xE0 else 0xC0]
      && U16(h[4..]) == (if size + 3 + length > 0xFFFF then 0 else size + 3 + length)
      && h[6..9] == [0x80, if compositionOffset == 0 then 0x80 else 0xC0, length]
      && h[9..] == TsWriter.Stamps(time, compositionOffset)
  {
    hide TsWriter.Stamps;
    var length: byte := if compositionOffset == 0 then 5 else 10;
    var total: UInt16 := if size + 3 + length > 0xFFFF then 0 else size + 3 + length;
    var h := PesHeader(pid, time, compositionOffset, size);
    var flags := [0x80, if compositionOffset == 0 then 0x80 else 0xC0, length];
    assert Be32(0x1E0) == [0, 0, 1, 0xE0] && Be32(0x1C0) == [0, 0, 1, 0xC0];
    assert h[4..] == Be16(total) + (flags + TsWriter.Stamps(time, compositionOffset));
    ReadBe16(total, flags + TsWriter.Stamps(time, compositionOffset));
  }

  // ----- how often tables are sent --------------------------------------------------------------------

  /** Whether tables come in front of a stream: after a change, or a second after the last. */
  predicate Announces(m: Mux, time: UInt32)
  {
    m.changed || Distance(m.timePMT, time) >= 1000
  }

  /** The tables of a frame: the version they say, if they are sent. */
  function FrameTables(m: Mux, f: Frame): seq<nat>
  {
    if !Sent(m, f) then []
    else
      var m1 := Register(m, f).1;
      if !Announces(m1, f.time) then [] else [(if m1.changed then m1.version as int + 1 else m1.version) % 32]
  }

  /** The program's version, from the sixth byte of a map packet's section. */
  function Versions(ps: seq<Packet188>): seq<nat>
  {
    if ps == [] then []
    else (if PidOf(ps[0]) == 32 then [ps[0][10] as int / 2 % 32] else []) + Versions(ps[1..])
  }

  lemma {:induction false} VersionsAppend(a: seq<Packet188>, b: seq<Packet188>)
    ensures Versions(a + b) == Versions(a) + Versions(b)
  {
    if a == [] {
      assert a + b == b;
    } else {
      assert (a + b)[0] == a[0] && (a + b)[1..] == a[1..] + b;
      var first: seq<nat> := if PidOf(a[0]) == 32 then [a[0][10] as int / 2 % 32] else [];
      assert Versions(a) == first + Versions(a[1..]);
      assert Versions(a + b) == first + Versions(a[1..] + b);
      hide Versions, PidOf;
      VersionsAppend(a[1..], b);
      Associative(first, Versions(a[1..]), Versions(b));
    }
  }

  lemma OneVersion(p: Packet188)
    ensures Versions([]) == []
    ensures Versions([p]) == if PidOf(p) == 32 then [p[10] as int / 2 % 32] else []
  {
    assert [p][1..] == [] && Versions([]) == [];
  }

  lemma PatPid(counter: byte)
    ensures PidOf(PatPacket(counter)) == 0
  {
    hide Crc, Be32, Fill;
  }

  lemma PmtVersion(counter: byte, version: byte, s: seq<(int, byte)>)
    requires |s| <= MAX_TRACKS
    ensures var p := PmtPacket(counter, version, s);
      PidOf(p) == 32 && p[10] as int / 2 % 32 == version % 32
  {
    hide Crc, Be32, Fill, Entries, ClockInfo;
    var p := PmtPacket(counter, version, s);
    assert p[10] == PmtSection(version, s)[5] == PmtBody(version, s)[2] == 0xC1 + version % 32 * 2;
    VersionWraps(version);
  }

  lemma FewStreams(m: Mux)
    requires Valid(m)
    ensures |Streams(m.videos, m.audios)| <= MAX_TRACKS
  {
  }

  lemma TablesVersion(m: Mux, time: UInt32)
    requires Valid(m)
    ensures Versions(MaybeTables(m, time))
      == if Announces(m, time) then [(if m.changed then m.version as int + 1 else m.version) % 32] else []
  {
    hide Versions, PatPacket, PmtPacket, PidOf, Streams, Counter, Count, Valid;
    OneVersion([0x47] + Fill(187, 0));
    if PmtDue(m, time) {
      var ps, m1 := TablePackets(m), WithVersion(m);
      assert ps == [ps[0]] + [ps[1]];
      VersionsAppend([ps[0]], [ps[1]]);
      OneVersion(ps[0]);
      OneVersion(ps[1]);
      PatPid(Counter(m1, 0));
      FewStreams(m);
      PmtVersion(Counter(Count(m1, 0), PMT_PID), m1.version, Streams(m.videos, m.audios));
      VersionWraps(m.version);
    }
  }

  lemma VersionWraps(version: byte)
    ensures (version + 1) % 256 % 32 == (version as int + 1) % 32
    ensures (0xC1 + version % 32 * 2) / 2 % 32 == version % 32
    ensures (0xC1 + (version + 1) % 256 % 32 * 2) / 2 % 32 == (version as int + 1) % 32
  {
  }

  lemma NoVersion(p: Packet188)
    requires PidOf(p) != 32
    ensures Versions([p]) == []
  {
    OneVersion(p);
  }

  lemma {:induction false} TailVersions(m: Mux, e: EsInfo, p: seq<byte>)
    requires Valid(m) && ValidInfo(e) && |p| < U32 && e.pid != 32
    ensures Versions(TailPackets(m, e, p).1) == []
    decreases |p|
  {
    hide Valid, Continue, TailPackets, Versions, Head, PidOf;
    OneVersion([0x47] + Fill(187, 0));
    if p == [] {
      TailPacketsNone(m, e);
    } else {
      ContinueClock(m, e, p);
      TailUnfold(m, e, p);
      var next := Continue(m, e.pid, e.time, e.randomAccess, |p|);
      var rest := TailPackets(next.0, e, p[next.2..]);
      ContinueHead(m, e, p);
      TailVersions(next.0, e, p[next.2..]);
      NoVersion(next.1 + p[..next.2]);
      VersionsAppend([next.1 + p[..next.2]], rest.1);
    }
  }

  lemma ContinueHead(m: Mux, e: EsInfo, p: seq<byte>)
    requires ValidInfo(e) && 0 < |p| < U32
    ensures var next := Continue(m, e.pid, e.time, e.randomAccess, |p|);
      PidOf(next.1 + p[..next.2]) == e.pid
  {
    hide Head, Adaptation, Counter;
    var next := Continue(m, e.pid, e.time, e.randomAccess, |p|);
    HeadCounter(false, e.pid, |p| < 184, Counter(m, e.pid), next.1 + p[..next.2]);
  }

  lemma StreamVersions(m: Mux, e: EsInfo, packet: Packet188, p2: seq<byte>)
    requires Valid(m) && ValidInfo(e) && e.esSize > 0 && Opening(m, e).1 <= packet && |p2| < U32
    requires e.pid != 32 && MaybePmt(m, e.time).0.pidPCR != 32
    ensures Valid(Opening(m, e).0)
    ensures Versions(PreludePackets(m, e) + [packet] + TailPackets(Opening(m, e).0, e, p2).1) == Versions(MaybeTables(m, e.time))
  {
    hide Valid, MaybePmt, MaybeTables, Prelude, First, TailPackets, Versions, PidOf, StartFill, Head;
    OpeningIs(m, e);
    var m1 := MaybePmt(m, e.time).0;
    OneVersion(packet);
    OpeningPid(m, e, packet);
    TailVersions(Opening(m, e).0, e, p2);
    VersionsAppend(PreludePackets(m, e) + [packet], TailPackets(Opening(m, e).0, e, p2).1);
    VersionsAppend(PreludePackets(m, e), [packet]);
    VersionsAppend(MaybeTables(m, e.time), MaybeClock(m1, e));
    if ClockUrgent(m1, e.pid, e.time, e.compositionOffset, e.esSize) {
      ClockPacketPid(m1, e.time);
      NoVersion(ClockPacket(m1, e.time).1);
    }
    assert Versions(MaybeTables(m, e.time)) + [] == Versions(MaybeTables(m, e.time));
  }

  lemma OpeningPid(m: Mux, e: EsInfo, packet: Packet188)
    requires Valid(m) && ValidInfo(e) && e.esSize > 0 && Opening(m, e).1 <= packet
    ensures PidOf(packet) == e.pid
  {
    hide Valid, MaybePmt, Prelude, First, Head, StartFill, PidOf, Counter;
    var m1 := Prelude(m, e.pid, e.time, e.compositionOffset, e.esSize).0;
    var fill := StartFill(MaybePmt(m, e.time).0, e.pid, e.time, e.compositionOffset, e.esSize);
    FirstHead(m1, fill, e.pid, e.time, e.compositionOffset, e.randomAccess, e.esSize);
    HeadCounter(true, e.pid, fill > 0, Counter(m1, e.pid), packet);
  }

  lemma ClockPacketPid(m: Mux, time: UInt32)
    requires Valid(m)
    ensures PidOf(ClockPacket(m, time).1) == m.pidPCR
  {
    PidInRange(m);
    hide Valid, First, Head, PidOf, Counter;
    FirstHead(m, 175, m.pidPCR, time, 0, false, 0);
    HeadCounter(true, m.pidPCR, true, Counter(m, m.pidPCR), ClockPacket(m, time).1);
  }

  // ----- a run's tables ----------------------------------------------------------------------------------

  /** The versions a run announces, frame by frame. */
  function RunTables(m: Mux, frames: seq<Frame>): seq<nat>
    requires Valid(m) && forall f :: f in frames ==> Writable(f)
    decreases |frames|
  {
    if frames == [] then [] else FrameTables(m, frames[0]) + RunTables(FrameStep(m, frames[0]).0, frames[1..])
  }

  lemma PcrNotMap(m: Mux, time: UInt32)
    requires Valid(m) && m.pidPCR != 32
    ensures MaybePmt(m, time).0.pidPCR != 32
  {
    hide PatPacket, PmtPacket, Count, WithVersion;
    if PmtDue(m, time) && Streams(m.videos, m.audios) != [] {
      StreamRange(m, 0);
    }
  }

  lemma FrameVersions(m: Mux, f: Frame)
    requires Valid(m) && Writable(f) && m.pidPCR != 32
    ensures Versions(FrameStep(m, f).1) == FrameTables(m, f) && FrameStep(m, f).0.pidPCR != 32
    ensures Sent(m, f) ==>
      var m1, m2 := Register(m, f).1, FrameStep(m, f).0;
      m2.timePMT == (if Announces(m1, f.time) then f.time else m1.timePMT)
      && (!Announces(m1, f.time) ==> !m1.changed) && !m2.changed
      && m2.version == (if m1.changed then (m1.version + 1) % 256 else m1.version)
  {
    hide Valid, TailPackets, Opening, Register, Concat, Stamped, MaybeTables, MaybeClock, MaybePmt, Versions, FramePackets,
      UnstampedFrame, Announces;
    OneVersion([0x47] + Fill(187, 0));
    RegisterPcr(m, f);
    if Sent(m, f) {
      RegisterValid(m, f);
      InfoValid(f);
      var m1, e, p := Register(m, f).1, Info(f), Concat(f.chunks);
      PcrNotMap(m1, e.time);
      TablesVersion(m1, e.time);
      StepVersions(m1, e, p);
      PmtFields(m1, e.time);
    }
  }

  lemma RegisterPcr(m: Mux, f: Frame)
    requires Valid(m) && Writable(f)
    ensures Register(m, f).1.pidPCR == m.pidPCR && (Sent(m, f) ==> Pid(f) != 32)
  {
    hide PutTrack, HasTrack, KindOf, Valid, Concat;
  }

  lemma PmtFields(m: Mux, time: UInt32)
    requires Valid(m)
    ensures var m1 := MaybePmt(m, time).0;
      m1.timePMT == (if Announces(m, time) then time else m.timePMT) && !m1.changed && (!Announces(m, time) ==> !m.changed)
      && m1.version == if m.changed then (m.version + 1) % 256 else m.version
  {
    hide PatPacket, PmtPacket, Streams, Valid;
  }

  lemma StepVersions(m: Mux, e: EsInfo, p: seq<byte>)
    requires Valid(m) && ValidInfo(e) && |p| == e.esSize > 0 && e.pid != 32 && MaybePmt(m, e.time).0.pidPCR != 32
    ensures var step := if Stamped(e) then FramePackets(m, e, p) else UnstampedFrame(m, e, p);
      Versions(step.1) == Versions(MaybeTables(m, e.time)) && SameProgram(MaybePmt(m, e.time).0, step.0)
  {
    hide Valid, MaybePmt, MaybeTables, MaybeClock, First, Prelude, StartFill, TailPackets, Stamped, Versions, Opening;
    OpeningIs(m, e);
    StreamSame(m, e);
    if Stamped(e) {
      FirstFits(m, e);
      var first := FirstPacket(m, e, p);
      OpeningFirst(m, e, p);
      StreamVersions(m, e, first.1, p[first.2..]);
      TailSame(Opening(m, e).0, e, p[first.2..]);
    } else {
      var first := UnstampedFirst(m, e, p);
      StreamVersions(m, e, first.1, p[first.2..]);
      TailSame(Opening(m, e).0, e, p[first.2..]);
    }
  }

  lemma OpeningFirst(m: Mux, e: EsInfo, p: seq<byte>)
    requires Valid(m) && ValidInfo(e) && Stamped(e) && |p| == e.esSize > 0
    ensures Opening(m, e).1 <= FirstPacket(m, e, p).1 && FirstPacket(m, e, p).0 == Opening(m, e).0
  {
    hide Valid, MaybePmt, First, Prelude, StartFill;
  }

  lemma StreamSame(m: Mux, e: EsInfo)
    requires Valid(m) && ValidInfo(e) && e.esSize > 0
    ensures SameProgram(MaybePmt(m, e.time).0, Opening(m, e).0)
  {
    hide Valid, MaybePmt, First, StartFill;
    var m1 := MaybePmt(m, e.time).0;
    var m2 := Prelude(m, e.pid, e.time, e.compositionOffset, e.esSize).0;
    if ClockUrgent(m1, e.pid, e.time, e.compositionOffset, e.esSize) {
      PidInRange(m1);
      FirstKeeps(m1, 175, m1.pidPCR, e.time, 0, false, 0);
    }
    FirstKeeps(m2, StartFill(m1, e.pid, e.time, e.compositionOffset, e.esSize), e.pid, e.time, e.compositionOffset, e.randomAccess,
               e.esSize);
  }

  lemma {:induction false} TailSame(m: Mux, e: EsInfo, p: seq<byte>)
    requires Valid(m) && ValidInfo(e) && |p| < U32
    ensures SameProgram(m, TailPackets(m, e, p).0)
    decreases |p|
  {
    hide Valid, Continue, TailPackets;
    if p == [] {
      TailPacketsNone(m, e);
    } else {
      ContinueClock(m, e, p);
      TailUnfold(m, e, p);
      ContinueKeeps(m, e, |p|);
      var next := Continue(m, e.pid, e.time, e.randomAccess, |p|);
      TailSame(next.0, e, p[next.2..]);
    }
  }

  /** The maps among all packets of a run are those announced: in front of the first stream
      after any change, with the next version, and else a second after the last. */
  lemma {:induction false} RunVersions(m: Mux, frames: seq<Frame>)
    requires Valid(m) && m.pidPCR != 32 && forall f :: f in frames ==> Writable(f)
    ensures Versions(RunPackets(m, frames).1) == RunTables(m, frames)
    decreases |frames|
  {
    hide Valid, FrameStep, FrameTables, Versions, Writable;
    OneVersion([0x47] + Fill(187, 0));
    if frames != [] {
      FrameVersions(m, frames[0]);
      var first := FrameStep(m, frames[0]);
      RunVersions(first.0, frames[1..]);
      VersionsAppend(first.1, RunPackets(first.0, frames[1..]).1);
    }
  }

  // ----- which tracks are sent ---------------------------------------------------------------------------

  /** A frame is taken exactly if its track is known, or its codec is one of four and there are
      fewer than 33 tracks; its pid counts up from 33 or 256, track 0 standing for track 1. */
  lemma TakenExactly(m: Mux, f: Frame)
    requires Valid(m) && Writable(f)
    ensures var id := Max(f.track, 1) - 1;
      var sendable := if f.video then f.codec == H264 || f.codec == HEVC else f.codec == AAC || f.codec == MP3;
      && Pid(f) == (if f.video then 33 else 256) + id
      && (Register(m, f).0 <==> HasPid(TrackStreams(m), Pid(f)) || (sendable && |TrackStreams(m)| < 33))
  {
    hide PutTrack, KindOf, Increasing, HasTrack, HasPid;
    var id := TrackId(f.track);
    StreamCount(m);
    KnownTrack(m, f.video, id);
  }

  predicate HasPid(s: seq<(int, byte)>, pid: int)
  {
    exists i :: 0 <= i < |s| && s[i].0 == pid
  }

  lemma TrackPid(m: Mux, video: bool, id: byte)
    requires Valid(m) && HasTrack(if video then m.videos else m.audios, id)
    ensures HasPid(TrackStreams(m), (if video then 33 else 256) + id)
  {
    hide Valid;
    var own := if video then m.videos else m.audios;
    var i :| 0 <= i < |own| && own[i].id == id;
    assert TrackStreams(m)[if video then i else |m.videos| + i].0 == (if video then 33 else 256) + id;
  }

  lemma PidTrack(m: Mux, i: nat, video: bool, id: byte)
    requires Valid(m) && (video ==> 33 + id < 256) && i < |TrackStreams(m)|
    requires TrackStreams(m)[i].0 == (if video then 33 else 256) + id
    ensures HasTrack(if video then m.videos else m.audios, id)
  {
    hide *;
    StreamCount(m);
    var n := |m.videos|;
    if i < n {
      PidOfVideo(m, i);
      HasAt(m.videos, i);
    } else {
      PidOfAudio(m, i - n);
      assert n + (i - n) == i;
      HasAt(m.audios, i - n);
    }
  }

  lemma PidOfVideo(m: Mux, i: nat)
    requires Valid(m) && i < |m.videos|
    ensures i < |TrackStreams(m)| && TrackStreams(m)[i].0 == 33 + m.videos[i].id < 256
  {
    hide Valid, Streams;
    VideoAt(m, i);
  }

  lemma PidOfAudio(m: Mux, i: nat)
    requires Valid(m) && i < |m.audios|
    ensures |m.videos| + i < |TrackStreams(m)| && TrackStreams(m)[|m.videos| + i].0 == 256 + m.audios[i].id
  {
    hide Valid, Streams;
    AudioAt(m, i);
  }

  lemma HasAt(s: seq<Elem>, i: nat)
    requires i < |s|
    ensures HasTrack(s, s[i].id)
  {
  }

  lemma KnownTrack(m: Mux, video: bool, id: byte)
    requires Valid(m) && (video ==> 33 + id < 256)
    ensures HasTrack(if video then m.videos else m.audios, id) <==> HasPid(TrackStreams(m), (if video then 33 else 256) + id)
  {
    hide Valid, Streams, HasTrack;
    var pid := (if video then 33 else 256) + id;
    if HasTrack(if video then m.videos else m.audios, id) {
      TrackPid(m, video, id);
    }
    if HasPid(TrackStreams(m), pid) {
      var i :| 0 <= i < |TrackStreams(m)| && TrackStreams(m)[i].0 == pid;
      PidTrack(m, i, video, id);
    }
  }
}
