/** TSWriter: elementary streams cut into 188-byte transport packets with PES
    headers, adaptation stuffing, clock references and program tables. */
module TsWriter {
  import opened Bytes
  import Crc32

  const FIRST_VIDEO_PID := 33
  const FIRST_AUDIO_PID := 256
  const PMT_PID := 32
  const PMT_PERIOD := 1000
  const PCR_OFFSET := 200
  const MAX_TRACKS := 33

  /** A track of the program: its zero-based number and the stream type byte of
      its codec (0x1B H264, 0x24 HEVC, 0x0F AAC, 0x03 MP3). */
  datatype Elem = Elem(id: byte, kind: byte)

  /** The fields of a TSWriter that concern the program, as a value. */
  datatype Mux = Mux(
    videos: seq<Elem>, audios: seq<Elem>,
    version: byte, changed: bool, timePMT: UInt32,
    pids: map<int, byte>,
    pidPCR: UInt16, firstPCR: bool, timePCR: UInt32)

  /** Tracks are kept in increasing number, video pids stay below audio pids, and a
      program table fits one packet. */
  predicate Valid(m: Mux)
  {
    && Increasing(m.videos) && Increasing(m.audios)
    && |m.videos| + |m.audios| <= MAX_TRACKS
    && (forall e :: e in m.videos ==> FIRST_VIDEO_PID + e.id < FIRST_AUDIO_PID && e.kind in {0x1B, 0x24})
    && (forall e :: e in m.audios ==> e.kind in {0x0F, 0x03})
    && m.pidPCR < 512
  }

  predicate Increasing(s: seq<Elem>)
  {
    forall i, j :: 0 <= i < j < |s| ==> s[i].id < s[j].id
  }

  // ----- packet identifiers and continuity counters ----------------------------

  function Counter(m: Mux, pid: int): byte
  {
    if pid in m.pids then m.pids[pid] else 0
  }

  /** A UInt8 counter is post-incremented for every packet with a payload. */
  function Count(m: Mux, pid: int): (r: Mux)
  {
    m.(pids := m.pids[pid := (Counter(m, pid) + 1) % 256])
  }

  // ----- program tables ----------------------------------------------------------

  function Crc(data: seq<byte>): UInt32
  {
    var x := Crc32.Compute(ToBits(data), Crc32.PLAIN) as int;
    Wrap32(x)
  }

  function ToBits(data: seq<byte>): (r: seq<bv8>)
    ensures |r| == |data|
  {
    seq(|data|, i requires 0 <= i < |data| => data[i] as bv8)
  }

  const PAT_SECTION: seq<byte> := [0x00, 0xB0, 0x0D, 0x00, 0x01, 0xC1, 0x00, 0x00, 0x00, 0x01, 0xE0, 0x20]

  function PatPacket(counter: byte): (p: seq<byte>)
    ensures |p| == 188 && p[0] == 0x47
  {
    var head := [0x47, 0x60, 0x00, 0x10 + counter % 16, 0x00];
    head + PAT_SECTION + Be32(Crc(PAT_SECTION)) + Fill(167, 0xFF)
  }

  /** The pid and the stream type of every track, videos first. */
  function Streams(videos: seq<Elem>, audios: seq<Elem>): (s: seq<(int, byte)>)
    ensures |s| == |videos| + |audios|
    ensures forall i :: 0 <= i < |videos| ==> s[i] == (FIRST_VIDEO_PID + videos[i].id, videos[i].kind)
    ensures forall i :: 0 <= i < |audios| ==> s[|videos| + i] == (FIRST_AUDIO_PID + audios[i].id, audios[i].kind)
  {
    Pids(videos, FIRST_VIDEO_PID) + Pids(audios, FIRST_AUDIO_PID)
  }

  function Pids(s: seq<Elem>, first: nat): (r: seq<(int, byte)>)
    ensures |r| == |s|
    ensures forall i :: 0 <= i < |s| ==> r[i] == (first + s[i].id, s[i].kind)
  {
    seq(|s|, i requires 0 <= i < |s| => (first + s[i].id, s[i].kind))
  }

  /** One entry of the program map: type, pid, no descriptors. */
  function Entry(e: (int, byte)): (r: seq<byte>)
    ensures |r| == 5
  {
    [e.1] + Be16(0xE000 + e.0) + Be16(0xF000)
  }

  function Entries(s: seq<(int, byte)>): (r: seq<byte>)
    ensures |r| == 5 * |s|
  {
    if s == [] then [] else Entry(s[0]) + Entries(s[1..])
  }

  /** The clock reference pid is the first track's. */
  function ClockPid(s: seq<(int, byte)>): int
  {
    if s == [] then 0 else s[0].0
  }

  function ClockInfo(s: seq<(int, byte)>): (r: seq<byte>)
    ensures |r| <= 4
  {
    if s == [] then [] else Be16(0xE000 + s[0].0) + Be16(0xF000)
  }

  /** Everything of the program map between its length and its checksum. */
  function PmtBody(version: byte, s: seq<(int, byte)>): (r: seq<byte>)
    ensures |r| == 5 + |ClockInfo(s)| + 5 * |s|
  {
    Be16(1) + [0xC1 + (version % 32) * 2] + Be16(0) + ClockInfo(s) + Entries(s)
  }

  function PmtSection(version: byte, s: seq<(int, byte)>): (r: seq<byte>)
    ensures |r| == 8 + |ClockInfo(s)| + 5 * |s|
  {
    var body := PmtBody(version, s);
    [0x02] + Be16(0xB000 + (|body| + 4) % 0x400) + body
  }

  function PmtPacket(counter: byte, version: byte, s: seq<(int, byte)>): (p: seq<byte>)
    requires |s| <= MAX_TRACKS
    ensures |p| == 188 && p[0] == 0x47
  {
    var head := [0x47, 0x60, 0x20, 0x10 + counter % 16, 0x00];
    var section := PmtSection(version, s);
    head + section + Be32(Crc(section)) + Fill(179 - |section|, 0xFF)
  }

  function WithVersion(m: Mux): Mux
  {
    if m.changed then m.(version := (m.version + 1) % 256, changed := false) else m
  }

  /** writePMT: both tables, one packet each. */
  function Tables(m: Mux, time: UInt32): (r: (Mux, seq<byte>))
    requires Valid(m)
    ensures Valid(r.0) && !PmtDue(r.0, time)
    ensures |r.1| == 376
  {
    var m1 := WithVersion(m);
    var m2 := Count(m1, 0);
    var m3 := Count(m2, PMT_PID);
    var s := Streams(m.videos, m.audios);
    (m3.(pidPCR := ClockPid(s), timePMT := time),
     PatPacket(Counter(m1, 0)) + PmtPacket(Counter(m2, PMT_PID), m1.version, s))
  }

  predicate PmtDue(m: Mux, time: UInt32)
  {
    m.changed || Distance(m.timePMT, time) >= PMT_PERIOD
  }

  function MaybePmt(m: Mux, time: UInt32): (r: (Mux, seq<byte>))
    requires Valid(m)
    ensures Valid(r.0)
  {
    if PmtDue(m, time) then Tables(m, time) else (m, [])
  }

  // ----- packet headers ------------------------------------------------------------

  /** Sync byte, payload start flag and pid, adaptation flag and counter. */
  function Head(start: bool, pid: int, adapted: bool, counter: byte): (r: seq<byte>)
    requires 0 <= pid < 0x2000
    ensures |r| == 4
  {
    [0x47] + Be16((if start then 0x4000 else 0) + pid) + [(if adapted then 0x30 else 0x10) + counter % 16]
  }

  /** The 42-bit clock field: 33 bits of the 90 kHz clock. */
  function Clock(time: UInt32): (r: seq<byte>)
    ensures |r| == 6
  {
    var pcr := (time * 90) % U32;
    Be32(pcr / 2) + Be16((pcr % 2) * 0x8000)
  }

  predicate ClockGoes(m: Mux, pid: int, time: UInt32, fillSize: nat)
  {
    fillSize >= 8 && pid == m.pidPCR && time > m.timePCR
  }

  /** writeAdaptiveHeader: an adaptation field of `fillSize` bytes in all. */
  function Adaptation(m: Mux, pid: int, time: UInt32, randomAccess: bool, fillSize: nat): (r: seq<byte>)
    requires 1 <= fillSize <= 184
    ensures |r| == fillSize
    ensures r[0] == fillSize - 1
  {
    if ClockGoes(m, pid, time, fillSize) then
      [fillSize - 1, if randomAccess then 0x50 else 0x10] + Clock(time) + Fill(fillSize - 8, 0xFF)
    else if fillSize > 1 then
      [fillSize - 1, 0] + Fill(fillSize - 2, 0xFF)
    else
      [0]
  }

  function AfterAdaptation(m: Mux, pid: int, time: UInt32, fillSize: nat): Mux
  {
    if ClockGoes(m, pid, time, fillSize) then m.(timePCR := time, firstPCR := false) else m
  }

  // ----- continuing a PES packet -----------------------------------------------------

  /** writePES without a header: the state, the bytes, and how much payload must follow. */
  function Continue(m: Mux, pid: int, time: UInt32, randomAccess: bool, size: UInt32): (r: (Mux, seq<byte>, byte))
    requires 0 <= pid < 512 && size > 0
    ensures |r.1| + r.2 == 188 && 0 < r.2 <= size
    ensures |r.1| >= 4 && r.1[0] == 0x47
  {
    var m1 := Count(m, pid);
    if size >= 184 then (m1, Head(false, pid, false, Counter(m, pid)), 184)
    else
      (AfterAdaptation(m1, pid, time, 184 - size),
       Head(false, pid, true, Counter(m, pid)) + Adaptation(m1, pid, time, randomAccess, 184 - size),
       size)
  }

  // ----- starting a PES packet ---------------------------------------------------------

  /** A 33-bit time stamp between marker bits. */
  function Stamp(t: nat): (r: seq<byte>)
    ensures |r| == 5
  {
    [(t / 0x4000_0000) % 8 * 2 + 0x21] + Be16((t / 0x8000) % 0x8000 * 2 + 1) + Be16(t % 0x8000 * 2 + 1)
  }

  // The product is taken on 32 bits.
  function Dts(time: UInt32): UInt32
  {
    ((time + PCR_OFFSET) % U32 * 90) % U32
  }

  function Pts(time: UInt32, compositionOffset: UInt16): nat
  {
    Dts(time) + 90 * compositionOffset
  }

  /** A stamp of 0 is taken for "none" and not written. */
  function MaybeStamp(t: nat): (r: seq<byte>)
    ensures |r| == if t == 0 then 0 else 5
  {
    if t == 0 then [] else Stamp(t)
  }

  function StampsLength(compositionOffset: UInt16): byte
  {
    if compositionOffset != 0 then 10 else 5
  }

  function Stamps(time: UInt32, compositionOffset: UInt16): (r: seq<byte>)
    ensures |r| <= StampsLength(compositionOffset)
  {
    if compositionOffset != 0 then MaybeStamp(Pts(time, compositionOffset)) + MaybeStamp(Dts(time))
    else MaybeStamp(Dts(time))
  }

  /** Start code and stream id, length, flags and stamps; without payload, a
      private stream id and no stamp. */
  function PesHeader(pid: int, time: UInt32, compositionOffset: UInt16, size: UInt32): (r: seq<byte>)
    ensures |r| == 9 + if size == 0 then 0 else |Stamps(time, compositionOffset)|
  {
    if size == 0 then Be32(0x1FF) + Be16(3) + [0x80, 0, 0]
    else
      var length := StampsLength(compositionOffset);
      var total := Wrap32(size + 3 + length);
      Be32(if pid < FIRST_AUDIO_PID then 0x1E0 else 0x1C0)
      + Be16(if total > 0xFFFF then 0 else total)
      + [0x80, if compositionOffset != 0 then 0xC0 else 0x80, length]
      + Stamps(time, compositionOffset)
  }

  /** How much of the first packet the payload leaves free. */
  function Spare(compositionOffset: UInt16, size: UInt32): (r: byte)
    requires size > 0
    ensures r <= 174 - StampsLength(compositionOffset)
  {
    var room := 175 - StampsLength(compositionOffset);
    if size >= room then 0 else room - size
  }

  predicate ClockLate(m: Mux, time: UInt32, spare: nat)
  {
    spare < 8 && (m.firstPCR || Signed32(time - m.timePCR) >= 100)
  }

  /** The adaptation bytes of a first packet: stuffing, or room made for the clock. */
  function StartFill(m: Mux, pid: int, time: UInt32, compositionOffset: UInt16, size: UInt32): (r: byte)
    requires size > 0
    ensures r <= 174 - StampsLength(compositionOffset)
  {
    var spare := Spare(compositionOffset, size);
    if ClockLate(m, time, spare) && pid == m.pidPCR then 8 else spare
  }

  predicate ClockUrgent(m: Mux, pid: int, time: UInt32, compositionOffset: UInt16, size: UInt32)
    requires size > 0
  {
    && ClockLate(m, time, Spare(compositionOffset, size))
    && pid != m.pidPCR
    && Signed32(time - m.timePCR) >= 500
  }

  /** The first packet of a PES packet, tables and clock packet already written. */
  function First(m: Mux, fill: byte, pid: int, time: UInt32, compositionOffset: UInt16, randomAccess: bool, size: UInt32)
    : (r: (Mux, seq<byte>, byte))
    requires 0 <= pid < 512
    requires fill <= if size == 0 then 175 else 174 - StampsLength(compositionOffset)
    ensures |r.1| + r.2 == 188
    ensures |r.1| == 13 + fill + if size == 0 then 0 else |Stamps(time, compositionOffset)|
    ensures size > 0 ==> r.2 > 0
    ensures r.1[0] == 0x47
  {
    var m1 := Count(m, pid);
    var head := Head(true, pid, fill > 0, Counter(m, pid))
      + (if fill > 0 then Adaptation(m1, pid, time, randomAccess, fill) else [])
      + PesHeader(pid, time, compositionOffset, size);
    (if fill > 0 then AfterAdaptation(m1, pid, time, fill) else m1, head, 188 - |head|)
  }

  /** A packet of the clock's pid that carries nothing but the clock. */
  function ClockPacket(m: Mux, time: UInt32): (r: (Mux, seq<byte>))
    requires Valid(m)
    ensures Valid(r.0)
    ensures |r.1| == 188 && r.1[0] == 0x47
  {
    var first := First(m, 175, m.pidPCR, time, 0, false, 0);
    (first.0, first.1)
  }

  /** Tables when they are due, and the clock when it is urgent. */
  function Prelude(m: Mux, pid: int, time: UInt32, compositionOffset: UInt16, size: UInt32): (r: (Mux, seq<byte>))
    requires Valid(m) && size > 0
    ensures Valid(r.0)
  {
    var tables := MaybePmt(m, time);
    if ClockUrgent(tables.0, pid, time, compositionOffset, size) then
      (ClockPacket(tables.0, time).0, tables.1 + ClockPacket(tables.0, time).1)
    else tables
  }

  /** writePES with a header. */
  function Start(m: Mux, pid: int, time: UInt32, compositionOffset: UInt16, randomAccess: bool, size: UInt32)
    : (r: (Mux, seq<byte>, byte))
    requires Valid(m) && 0 <= pid < 512 && size > 0
    ensures Valid(r.0)
    ensures r.2 > 0
  {
    var prelude := Prelude(m, pid, time, compositionOffset, size);
    var fill := StartFill(MaybePmt(m, time).0, pid, time, compositionOffset, size);
    var first := First(prelude.0, fill, pid, time, compositionOffset, randomAccess, size);
    (first.0, prelude.1 + first.1, first.2)
  }

  // ----- an elementary stream, piece by piece ---------------------------------------------

  /** What an elementary stream call carries besides its bytes. */
  datatype EsInfo = EsInfo(pid: int, time: UInt32, compositionOffset: UInt16, randomAccess: bool, esSize: UInt32)

  predicate ValidInfo(e: EsInfo)
  {
    0 < e.pid < 512
  }

  /** All fields: the program, how many bytes the packet under way still takes,
      and how many its stream still has. */
  datatype Writer = Writer(mux: Mux, canWrite: byte, toWrite: UInt32)

  /** The header work before the next payload bytes, when a packet or the whole PES is used up. */
  function Prepare(w: Writer, e: EsInfo): (r: (Writer, seq<byte>))
    requires Valid(w.mux) && ValidInfo(e) && e.esSize > 0
    ensures Valid(r.0.mux)
    ensures r.0.canWrite > 0
  {
    if w.toWrite == 0 then
      // the stuffing is never there when esSize was right
      var start := Start(w.mux, e.pid, e.time, e.compositionOffset, e.randomAccess, e.esSize);
      (Writer(start.0, start.2, e.esSize), Fill(w.canWrite, 0xFF) + start.1)
    else if w.canWrite == 0 then
      var next := Continue(w.mux, e.pid, e.time, e.randomAccess, w.toWrite);
      (Writer(next.0, next.2, w.toWrite), next.1)
    else
      (w, [])
  }

  /** beginMedia: the tables are due, the clock has not started. */
  function Begun(m: Mux): Mux
  {
    m.(timePCR := 0, firstPCR := true, timePMT := 0, changed := true)
  }

  function Consume(w: Writer, n: nat): (r: Writer)
    requires n <= w.canWrite
  {
    Writer(w.mux, w.canWrite - n, if n > w.toWrite then 0 else w.toWrite - n)
  }

  /** writeES: the state and the bytes after one call with `payload`. */
  function Es(w: Writer, e: EsInfo, payload: seq<byte>): (r: (Writer, seq<byte>))
    requires Valid(w.mux) && ValidInfo(e) && e.esSize > 0
    ensures Valid(r.0.mux)
    decreases |payload|
  {
    if payload == [] then (w, [])
    else
      var next := Prepare(w, e);
      var n := Min(|payload|, next.0.canWrite);
      var others := Es(Consume(next.0, n), e, payload[n..]);
      (others.0, next.1 + payload[..n] + others.1)
  }

  // ----- tracks ------------------------------------------------------------------------------

  datatype Codec = H264 | HEVC | AAC | MP3 | Unsupported

  /** Track numbers count from 1; 0 stands for the first track. */
  function TrackId(track: byte): byte
  {
    if track > 0 then track - 1 else 0
  }

  predicate HasTrack(s: seq<Elem>, id: byte)
  {
    exists i :: 0 <= i < |s| && s[i].id == id
  }

  /** `s` with the track `id`, new or replaced, in its place. */
  function PutTrack(s: seq<Elem>, id: byte, kind: byte): (r: seq<Elem>)
    ensures |s| <= |r| <= |s| + 1
  {
    if s == [] || id < s[0].id then [Elem(id, kind)] + s
    else if s[0].id == id then [Elem(id, kind)] + s[1..]
    else [s[0]] + PutTrack(s[1..], id, kind)
  }

  function KindOf(s: seq<Elem>, id: byte): byte
    requires HasTrack(s, id)
  {
    if s[0].id == id then s[0].kind else
      assert HasTrack(s[1..], id) by {
        var i :| 0 <= i < |s| && s[i].id == id;
        assert s[1..][i - 1].id == id;
      }
      KindOf(s[1..], id)
  }

  /** Whether a frame of this track can be written, and the program with its track. */
  function RegisterVideo(m: Mux, id: byte, codec: Codec): (r: (bool, Mux))
  {
    if HasTrack(m.videos, id) then (true, m)
    else if (codec != H264 && codec != HEVC) || |m.videos| + |m.audios| == MAX_TRACKS then (false, m)
    else (true, m.(videos := PutTrack(m.videos, id, if codec == HEVC then 0x24 else 0x1B), changed := true))
  }

  /** An audio track may turn from AAC to anything else (sent as MP3) and back. */
  function RegisterAudio(m: Mux, id: byte, codec: Codec): (r: (bool, Mux))
  {
    var kind := if codec == AAC then 0x0F else 0x03;
    if HasTrack(m.audios, id) then
      (true, if KindOf(m.audios, id) == kind then m else m.(audios := PutTrack(m.audios, id, kind), changed := true))
    else if (codec != AAC && codec != MP3) || |m.videos| + |m.audios| == MAX_TRACKS then (false, m)
    else (true, m.(audios := PutTrack(m.audios, id, kind), changed := true))
  }

  // ----- the writer object -------------------------------------------------------------------

  class TSWriter {
    var videos: seq<Elem>
    var audios: seq<Elem>
    var version: byte
    var changed: bool
    var timePMT: UInt32
    var pids: map<int, byte>
    var pidPCR: UInt16
    var firstPCR: bool
    var timePCR: UInt32
    var canWrite: byte
    var toWrite: UInt32

    function State(): Mux
      reads this
    {
      Mux(videos, audios, version, changed, timePMT, pids, pidPCR, firstPCR, timePCR)
    }

    function Whole(): Writer
      reads this
    {
      Writer(State(), canWrite, toWrite)
    }

    /** The counters and the table version outlive a program. */
    method BeginMedia()
      modifies this
      ensures Whole() == Writer(Begun(old(State())), 0, 0)
      ensures changed && firstPCR && timePCR == 0 && timePMT == 0
      ensures (videos, audios, version, pids, pidPCR) == old((videos, audios, version, pids, pidPCR))
    {
      timePCR, toWrite, canWrite, firstPCR, timePMT, changed := 0, 0, 0, true, 0, true;
    }

    method NextCounter(pid: int) returns (counter: byte)
      modifies `pids
      ensures counter == Counter(old(State()), pid)
      ensures State() == Count(old(State()), pid)
    {
      counter := if pid in pids then pids[pid] else 0;
      pids := pids[pid := (counter + 1) % 256];
    }

    method WriteAdaptiveHeader(writer: BinaryWriter, pid: int, time: UInt32, randomAccess: bool, fillSize: nat)
      requires 1 <= fillSize <= 184
      modifies writer, `timePCR, `firstPCR
      ensures writer.data == old(writer.data) + Adaptation(old(State()), pid, time, randomAccess, fillSize)
      ensures State() == AfterAdaptation(old(State()), pid, time, fillSize)
    {
      hide Be16, Be32;
      var field: seq<byte> := [fillSize - 1];
      if fillSize - 1 >= 7 && pid == pidPCR && time > timePCR {
        var pcr := time * 90 % U32;
        field := field + [if randomAccess then 0x50 else 0x10] + (Be32(pcr / 2) + Be16(pcr % 2 * 0x8000));
        timePCR := time;
        firstPCR := false;
      } else if fillSize > 1 {
        field := field + [0];
      }
      writer.Write(field + Fill(fillSize - |field|, 0xFF));
      assert field + Fill(fillSize - |field|, 0xFF) == Adaptation(old(State()), pid, time, randomAccess, fillSize);
    }

    method WritePmt(writer: BinaryWriter, time: UInt32)
      requires Valid(State())
      modifies writer, this
      ensures State() == Tables(old(State()), time).0
      ensures writer.data == old(writer.data) + Tables(old(State()), time).1
    {
      hide PatPacket, PmtPacket, Streams, ClockPid;
      if changed {
        version := (version + 1) % 256;
        changed := false;
      }
      var counter := NextCounter(0);
      writer.Write(PatPacket(counter));
      counter := NextCounter(PMT_PID);
      WriteProgramMap(writer, counter);
      timePMT := time;
    }

    method WriteProgramMap(writer: BinaryWriter, counter: byte)
      requires |videos| + |audios| <= MAX_TRACKS
      modifies writer, `pidPCR
      ensures State() == old(State()).(pidPCR := ClockPid(Streams(videos, audios)))
      ensures writer.data == old(writer.data) + PmtPacket(counter, version, Streams(videos, audios))
    {
      hide Crc, ClockInfo, Entries, ClockPid, Streams;
      var head := [0x47, 0x60, 0x20, 0x10 + counter % 16, 0x00];
      var streams := ProgramStreams();
      var body := Be16(1) + [0xC1 + (version % 32) * 2] + Be16(0) + streams;
      ghost var s := Streams(videos, audios);
      assert body == PmtBody(version, s);
      var section := [0x02] + Be16(0xB000 + (|body| + 4) % 0x400) + body;
      assert section == PmtSection(version, s);
      writer.Write(head + section + Be32(Crc(section)) + Fill(179 - |section|, 0xFF));
    }

    method ProgramStreams() returns (streams: seq<byte>)
      modifies `pidPCR
      ensures State() == old(State()).(pidPCR := ClockPid(Streams(videos, audios)))
      ensures streams == ClockInfo(Streams(videos, audios)) + Entries(Streams(videos, audios))
    {
      hide Streams, ClockPid, ClockInfo, Entries;
      ghost var s := Streams(videos, audios);
      NoStreams(s);
      pidPCR := 0;
      streams := AddStreams([], videos, FIRST_VIDEO_PID, s, 0);
      streams := AddStreams(streams, audios, FIRST_AUDIO_PID, s, |videos|);
    }

    method AddStreams(before: seq<byte>, tracks: seq<Elem>, first: nat, ghost s: seq<(int, byte)>, ghost k: nat)
      returns (streams: seq<byte>)
      requires 0 < first <= 256 && k + |tracks| <= |s|
      requires forall i :: 0 <= i < |tracks| ==> s[k + i] == (first + tracks[i].id, tracks[i].kind)
      requires pidPCR == ClockPid(s[..k]) && (pidPCR == 0 ==> k == 0)
      requires before == ClockInfo(s[..k]) + Entries(s[..k])
      modifies `pidPCR
      ensures pidPCR == ClockPid(s[..k + |tracks|]) && (pidPCR == 0 ==> k + |tracks| == 0)
      ensures State() == old(State()).(pidPCR := pidPCR)
      ensures streams == ClockInfo(s[..k + |tracks|]) + Entries(s[..k + |tracks|])
    {
      hide ClockPid, ClockInfo, Entries;
      streams := before;
      for i := 0 to |tracks|
        invariant pidPCR == ClockPid(s[..k + i]) && (pidPCR == 0 ==> k + i == 0)
        invariant streams == ClockInfo(s[..k + i]) + Entries(s[..k + i])
      {
        streams := AddStream(streams, first + tracks[i].id, tracks[i].kind, s, k + i);
      }
    }

    /** One track of the program map; the first names the clock. */
    method AddStream(before: seq<byte>, pid: UInt16, kind: byte, ghost s: seq<(int, byte)>, ghost i: nat)
      returns (streams: seq<byte>)
      requires i < |s| && s[i] == (pid, kind) && pid > 0
      requires pidPCR == ClockPid(s[..i]) && (pidPCR == 0 ==> i == 0)
      requires before == ClockInfo(s[..i]) + Entries(s[..i])
      modifies `pidPCR
      ensures pidPCR == ClockPid(s[..i + 1]) && pidPCR != 0
      ensures State() == old(State()).(pidPCR := pidPCR)
      ensures streams == ClockInfo(s[..i + 1]) + Entries(s[..i + 1])
    {
      hide Entry, Entries;
      EntriesSnoc(s, i);
      assert i > 0 ==> s[..i][0] == s[0];
      assert s[..i + 1][0] == s[0];
      streams := before;
      if pidPCR == 0 {
        pidPCR := pid;
        streams := streams + (Be16(0xE000 + pid) + Be16(0xF000));
      }
      streams := streams + Entry((pid, kind));
    }

    /** writePES without a header. */
    method ContinuePes(writer: BinaryWriter, pid: int, time: UInt32, randomAccess: bool, size: UInt32) returns (room: byte)
      requires 0 <= pid < 512 && size > 0
      modifies writer, `pids, `timePCR, `firstPCR
      ensures (State(), room) == (Continue(old(State()), pid, time, randomAccess, size).0,
                                  Continue(old(State()), pid, time, randomAccess, size).2)
      ensures writer.data == old(writer.data) + Continue(old(State()), pid, time, randomAccess, size).1
    {
      var counter := NextCounter(pid);
      writer.Write(Head(false, pid, size < 184, counter));
      if size >= 184 {
        return 184;
      }
      WriteAdaptiveHeader(writer, pid, time, randomAccess, 184 - size);
      return size;
    }

    /** The first packet: header, room for stuffing or clock, PES header. */
    method WriteFirst(writer: BinaryWriter, pid: int, time: UInt32, compositionOffset: UInt16, fill: byte, randomAccess: bool,
                      size: UInt32)
      returns (room: byte)
      requires 0 <= pid < 512
      requires fill <= if size == 0 then 175 else 174 - StampsLength(compositionOffset)
      modifies writer, `pids, `timePCR, `firstPCR
      ensures State() == First(old(State()), fill, pid, time, compositionOffset, randomAccess, size).0
      ensures room == First(old(State()), fill, pid, time, compositionOffset, randomAccess, size).2
      ensures writer.data == old(writer.data) + First(old(State()), fill, pid, time, compositionOffset, randomAccess, size).1
    {
      hide Adaptation, PesHeader, AfterAdaptation, Head, Count, Stamps;
      var offset := |writer.data|;
      ghost var m1 := Count(State(), pid);
      var counter := NextCounter(pid);
      var head := Head(true, pid, fill > 0, counter);
      writer.Write(head);
      ghost var field: seq<byte> := [];
      if fill > 0 {
        WriteAdaptiveHeader(writer, pid, time, randomAccess, fill);
        field := Adaptation(m1, pid, time, randomAccess, fill);
      }
      var pes := PesHeader(pid, time, compositionOffset, size);
      writer.Write(pes);
      assert writer.data == old(writer.data) + (head + field + pes);
      room := 188 - (|writer.data| - offset);
    }

    /** writePES asked for no payload: a clock packet only. The tables are never
        due here, since its caller has just seen to them. */
    method WriteClock(writer: BinaryWriter, time: UInt32)
      requires Valid(State()) && !PmtDue(State(), time)
      modifies writer, this
      ensures State() == ClockPacket(old(State()), time).0
      ensures writer.data == old(writer.data) + ClockPacket(old(State()), time).1
    {
      hide First;
      var _ := WriteFirst(writer, pidPCR, time, 0, 175, false, 0);
    }

    /** The start of writePES: periodic tables, then the stuffing a short payload
        leaves or the room the clock needs, with an urgent clock packet in between. */
    method WritePrelude(writer: BinaryWriter, pid: int, time: UInt32, compositionOffset: UInt16, size: UInt32)
      returns (fillSize: byte)
      requires Valid(State()) && size > 0
      modifies writer, this
      ensures State() == Prelude(old(State()), pid, time, compositionOffset, size).0
      ensures writer.data == old(writer.data) + Prelude(old(State()), pid, time, compositionOffset, size).1
      ensures fillSize == StartFill(MaybePmt(old(State()), time).0, pid, time, compositionOffset, size)
    {
      hide ClockPacket, Tables, ClockLate, Spare;
      ghost var before := writer.data;
      if PmtDue(State(), time) {
        WritePmt(writer, time);
      }
      ghost var tables := MaybePmt(old(State()), time);
      assert State() == tables.0 && writer.data == before + tables.1;
      fillSize := Spare(compositionOffset, size);
      if ClockLate(State(), time, fillSize) {
        if pid == pidPCR {
          fillSize := 8;
        } else if Signed32(time - timePCR) >= 500 {
          assert ClockUrgent(State(), pid, time, compositionOffset, size);
          WriteClock(writer, time);
          Associative(before, tables.1, ClockPacket(tables.0, time).1);
        }
      }
    }

    /** writePES with a header. */
    method StartPes(writer: BinaryWriter, pid: int, time: UInt32, compositionOffset: UInt16, randomAccess: bool, size: UInt32)
      returns (room: byte)
      requires Valid(State()) && 0 <= pid < 512 && size > 0
      modifies writer, this
      ensures State() == Start(old(State()), pid, time, compositionOffset, randomAccess, size).0
      ensures room == Start(old(State()), pid, time, compositionOffset, randomAccess, size).2
      ensures writer.data == old(writer.data) + Start(old(State()), pid, time, compositionOffset, randomAccess, size).1
    {
      hide Prelude, First, StartFill, MaybePmt;
      ghost var before, m := writer.data, State();
      var fillSize := WritePrelude(writer, pid, time, compositionOffset, size);
      ghost var prelude := Prelude(m, pid, time, compositionOffset, size);
      room := WriteFirst(writer, pid, time, compositionOffset, fillSize, randomAccess, size);
      Associative(before, prelude.1, First(prelude.0, fillSize, pid, time, compositionOffset, randomAccess, size).1);
    }

    /** writeES: `payload` of a stream of `e.esSize` bytes in all. */
    method WriteEs(writer: BinaryWriter, e: EsInfo, payload: seq<byte>)
      requires Valid(State()) && ValidInfo(e) && e.esSize > 0
      modifies writer, this
      ensures Whole() == Es(old(Whole()), e, payload).0
      ensures writer.data == old(writer.data) + Es(old(Whole()), e, payload).1
    {
      ghost var result := Es(Whole(), e, payload);
      ghost var total := writer.data + result.1;
      hide Prepare, Valid, Es, Consume;
      var rest := payload;
      while rest != []
        invariant Valid(State())
        invariant Es(Whole(), e, rest).0 == result.0
        invariant writer.data + Es(Whole(), e, rest).1 == total
      {
        EsUnfold(Whole(), e, rest);
        ghost var before, piece := writer.data, Prepare(Whole(), e).1;
        var n := WritePiece(writer, e, rest);
        piece := piece + rest[..n];
        rest := rest[n..];
        Associative(before, piece, Es(Whole(), e, rest).1);
      }
      EsNothing(Whole(), e);
    }

    /** Headers if needed, then as much of `rest` as the packet takes. */
    method WritePiece(writer: BinaryWriter, e: EsInfo, rest: seq<byte>) returns (n: nat)
      requires Valid(State()) && ValidInfo(e) && e.esSize > 0
      modifies writer, this
      ensures n == Min(|rest|, Prepare(old(Whole()), e).0.canWrite)
      ensures Whole() == Consume(Prepare(old(Whole()), e).0, n)
      ensures writer.data == old(writer.data) + (Prepare(old(Whole()), e).1 + rest[..n])
    {
      hide Prepare, Valid;
      PrepareNext(writer, e);
      n := Min(|rest|, canWrite);
      writer.Write(rest[..n]);
      canWrite := canWrite - n;
      toWrite := if n > toWrite then 0 else toWrite - n;
    }

    /** The track part of writeVideo: false when the frame is ignored. */
    method EnsureVideo(track: byte, codec: Codec) returns (accepted: bool)
      modifies `videos, `changed
      ensures (accepted, State()) == RegisterVideo(old(State()), TrackId(track), codec)
    {
      var id := TrackId(track);
      if HasTrack(videos, id) {
        return true;
      }
      if (codec != H264 && codec != HEVC) || |videos| + |audios| == MAX_TRACKS {
        return false;
      }
      videos := PutTrack(videos, id, if codec == HEVC then 0x24 else 0x1B);
      changed := true;
      return true;
    }

    /** The track part of writeAudio. */
    method EnsureAudio(track: byte, codec: Codec) returns (accepted: bool)
      modifies `audios, `changed
      ensures (accepted, State()) == RegisterAudio(old(State()), TrackId(track), codec)
    {
      var id := TrackId(track);
      var kind := if codec == AAC then 0x0F else 0x03;
      if !HasTrack(audios, id) {
        if (codec != AAC && codec != MP3) || |videos| + |audios| == MAX_TRACKS {
          return false;
        }
        audios := PutTrack(audios, id, kind);
        changed := true;
      } else if KindOf(audios, id) != kind {
        audios := PutTrack(audios, id, kind);
        changed := true;
      }
      return true;
    }

    method PrepareNext(writer: BinaryWriter, e: EsInfo)
      requires Valid(State()) && ValidInfo(e) && e.esSize > 0
      modifies writer, this
      ensures Whole() == Prepare(old(Whole()), e).0
      ensures writer.data == old(writer.data) + Prepare(old(Whole()), e).1
    {
      hide Start, Continue;
      if toWrite == 0 {
        if canWrite != 0 {
          writer.Write(Fill(canWrite, 0xFF));
        }
        var room := StartPes(writer, e.pid, e.time, e.compositionOffset, e.randomAccess, e.esSize);
        canWrite, toWrite := room, e.esSize;
      } else if canWrite == 0 {
        canWrite := ContinuePes(writer, e.pid, e.time, e.randomAccess, toWrite);
      }
    }
  }

  lemma EsNothing(w: Writer, e: EsInfo)
    requires Valid(w.mux) && ValidInfo(e) && e.esSize > 0
    ensures Es(w, e, []) == (w, [])
  {
  }

  lemma EsUnfold(w: Writer, e: EsInfo, payload: seq<byte>)
    requires Valid(w.mux) && ValidInfo(e) && e.esSize > 0 && payload != []
    ensures var n := Min(|payload|, Prepare(w, e).0.canWrite);
      Es(w, e, payload) == (Es(Consume(Prepare(w, e).0, n), e, payload[n..]).0,
                            Prepare(w, e).1 + payload[..n] + Es(Consume(Prepare(w, e).0, n), e, payload[n..]).1)
  {
  }

  lemma NoStreams(s: seq<(int, byte)>)
    ensures ClockPid(s[..0]) == 0
    ensures ClockInfo(s[..0]) + Entries(s[..0]) == []
    ensures s[..|s|] == s
  {
    assert s[..0] == [];
  }

  lemma EntriesSnoc(s: seq<(int, byte)>, i: nat)
    requires i < |s|
    ensures Entries(s[..i + 1]) == Entries(s[..i]) + Entry(s[i])
  {
    EntriesAppend(s[..i], s[i]);
    assert s[..i + 1] == s[..i] + [s[i]];
  }

  lemma {:induction false} EntriesAppend(s: seq<(int, byte)>, e: (int, byte))
    ensures Entries(s + [e]) == Entries(s) + Entry(e)
  {
    hide Entry;
    if s == [] {
      assert (s + [e])[1..] == [];
    } else {
      assert (s + [e])[1..] == s[1..] + [e];
      EntriesAppend(s[1..], e);
    }
  }
}
