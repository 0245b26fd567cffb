/** TSReader: finds the 188-byte packets in a byte stream cut anywhere, follows
    the program tables, and hands each program its payload bytes. */
module TsReader {
  import opened Options
  import opened Bytes

  datatype Reader = NoReader | H264Reader | HevcReader | AdtsReader | Mp3Reader

  /** A program: its track reader, whether it waits for a PES header, and the
      last continuity counter (0xFF before the first packet). */
  datatype Program = Program(reader: Reader, waitHeader: bool, sequence: byte)

  const NEW_PROGRAM := Program(NoReader, true, 0xFF)

  /** The tables a TSReader has learnt, as a value. */
  datatype Demux = Demux(programs: map<int, Program>, pmts: map<int, byte>, crcPAT: UInt32)

  const EMPTY := Demux(map[], map[], 0)

  /** What the reader tells its source and its track readers. */
  datatype Event =
    | Read(pid: int, data: seq<byte>)
    | Times(timed: int, pts: nat, dts: nat)
    | Lost(from: int, bytes: nat)
    | Flush(flushed: int)
    | ResetSource

  // ----- adaptation field -----------------------------------------------------------

  /** Skip the adaptation field at the front of `r`. */
  function SkipAdaptation(r: seq<byte>): (rest: seq<byte>)
  {
    var length := U8(r);
    var r1 := Drop(r, 1);
    if length >= 7 then
      var r2 := Drop(r1, 1);
      if U8(r1) / 16 % 2 == 1 then
        var skipped := Min(6, |r2|);
        Drop(Drop(r2, 6), length - skipped - 1)
      else
        Drop(r2, length - 1)
    else
      Drop(r1, length)
  }

  /** However it is walked through, the field is its length byte and that many more. */
  lemma SkipAdaptationSkips(r: seq<byte>)
    ensures SkipAdaptation(r) == Drop(r, 1 + U8(r))
  {
    var length := U8(r);
    var r1 := Drop(r, 1);
    DropDrop(r, 1, length);
    if length >= 7 {
      var r2 := Drop(r1, 1);
      DropDrop(r, 1, 1);
      if U8(r1) / 16 % 2 == 1 {
        if |r2| >= 6 {
          DropDrop(r2, 6, length - 7);
          DropDrop(r, 2, length - 1);
        } else {
          assert Drop(r2, 6) == [];
          assert Drop(r, 1 + length as int) == [];
        }
      } else {
        DropDrop(r, 2, length - 1);
      }
    }
  }

  // ----- program association ----------------------------------------------------------

  function AddPmts(r: seq<byte>, pmts: map<int, byte>): (map<int, byte>, seq<byte>)
    decreases |r|
  {
    if |r| <= 4 then (pmts, r)
    else
      var r1 := Drop(r, 2);
      var pid := U16(r1) % 0x2000;
      AddPmts(Drop(r1, 2), if pid in pmts then pmts else pmts[pid := 0xFF])
  }

  /** Every program with a reader is flushed, in increasing pid. */
  function FlushFrom(programs: map<int, Program>, pid: nat): seq<Event>
    decreases 0x2000 - pid
  {
    if pid >= 0x2000 then []
    else
      (if pid in programs && programs[pid].reader != NoReader then [Flush(pid)] else [])
      + FlushFrom(programs, pid + 1)
  }

  /** A section cut at its declared length, if that many bytes are there. */
  function Table(r: seq<byte>, size: nat): seq<byte>
  {
    if size > |r| then r else r[..size]
  }

  /** The association table behind the pointer field. */
  function PatTable(data: seq<byte>): seq<byte>
  {
    Drop(Drop(data, 1), U8(data))
  }

  /** What follows the five bytes of identification: programs, then the checksum. */
  function PatPrograms(r: seq<byte>): seq<byte>
  {
    Drop(Table(Drop(r, 3), U16(Drop(r, 1)) % 0x400), 5)
  }

  /** The new tables, unless the checksum is the one already known. */
  function Associate(d: Demux, pmts: map<int, byte>, crc: UInt32): (Demux, seq<Event>)
  {
    if crc == d.crcPAT then (d, [])
    else if d.crcPAT != 0 then (Demux(map[], pmts, crc), FlushFrom(d.programs, 0) + [ResetSource])
    else (Demux(d.programs, pmts, crc), [])
  }

  /** parsePAT */
  function ParsePat(d: Demux, data: seq<byte>): (Demux, seq<Event>)
  {
    if U8(PatTable(data)) != 0 then (d, [])
    else
      var pmts := AddPmts(PatPrograms(PatTable(data)), map[]);
      Associate(d, pmts.0, U32At(pmts.1))
  }

  // ----- program map --------------------------------------------------------------------

  function ReaderOf(kind: byte): Reader
  {
    if kind == 0x1B then H264Reader
    else if kind == 0x24 then HevcReader
    else if kind == 0x0F then AdtsReader
    else if kind == 0x03 || kind == 0x04 then Mp3Reader
    else NoReader
  }

  /** The cursor after the descriptors of one stream (readESI; the languages they
      name are not part of this model). `available` is a UInt16 counter. */
  function SkipDescriptors(r: seq<byte>, available: UInt16): (rest: seq<byte>)
    ensures |rest| <= |r|
    decreases |r|
  {
    if available == 0 || r == [] then r
    else
      var left := available - 1;
      var r1 := r[1..];
      if r[0] == 0xFF then SkipDescriptors(r1, left)
      else
        var left1: UInt16 := if left == 0 then 0xFFFF else left - 1;
        if left == 0 then SkipDescriptors(r1, left1)
        else
          var r2 := Drop(r1, 1);
          var size := Min(U8(r1), |r2|);
          SkipDescriptors(Drop(r2, size), (left1 - size) % 0x1_0000)
  }

  function ProgramOf(d: Demux, pid: int): Program
  {
    if pid in d.programs then d.programs[pid] else NEW_PROGRAM
  }

  /** A stream of the map gets its reader; a reader it replaces is flushed. */
  function SetProgram(d: Demux, pid: int, reader: Reader): (Demux, seq<Event>)
  {
    var program := ProgramOf(d, pid);
    (d.(programs := d.programs[pid := program.(reader := reader)]),
     if program.reader != NoReader && program.reader != reader then [Flush(pid)] else [])
  }

  function StreamPid(r: seq<byte>): int
  {
    U16(Drop(r, 1)) % 0x2000
  }

  function AfterStream(r: seq<byte>): (rest: seq<byte>)
    ensures |r| >= 1 ==> |rest| < |r|
  {
    var info := U16(Drop(r, 3)) % 0x1000;
    if ReaderOf(U8(r)) == NoReader then Drop(Drop(r, 5), info) else SkipDescriptors(Drop(r, 5), info)
  }

  /** The readers set, stream by stream. */
  function SetPrograms(d: Demux, r: seq<byte>): (Demux, seq<Event>)
    decreases |r|
  {
    if |r| <= 4 then (d, [])
    else
      var first := SetProgram(d, StreamPid(r), ReaderOf(U8(r)));
      var others := SetPrograms(first.0, AfterStream(r));
      (others.0, first.1 + others.1)
  }

  function MapVersion(table: seq<byte>): byte
  {
    U8(Drop(table, 2)) / 2 % 0x20
  }

  /** The stream list, behind the clock pid and the program descriptors. */
  function MapStreams(table: seq<byte>): seq<byte>
  {
    Drop(Drop(table, 9), U16(Drop(table, 7)) % 0x1000)
  }

  /** parsePMT, for the table found at `pid`. */
  function ParsePmt(d: Demux, pid: int, data: seq<byte>): (Demux, seq<Event>)
    requires pid in d.pmts
  {
    var table := Table(Drop(data, 2), U16(data) % 0x400);
    if |table| < 9 || MapVersion(table) == d.pmts[pid] then (d, [])
    else SetPrograms(d.(pmts := d.pmts[pid := MapVersion(table)]), MapStreams(table))
  }

  /** parsePSI */
  function ParsePsi(d: Demux, pid: int, data: seq<byte>): (Demux, seq<Event>)
    requires pid in d.pmts
  {
    if data == [] then (d, [])
    else
      var skip := data[0];
      var rest := data[1..];
      if skip >= |rest| then (d, [])
      else if rest[skip] == 2 then ParsePmt(d, pid, rest[skip + 1..])
      else (d, [])
  }

  // ----- PES header ---------------------------------------------------------------------

  /** A 33-bit time stamp. */
  function ReadStamp(r: seq<byte>): nat
  {
    U8(r) / 2 % 8 * 0x4000_0000 + U16(Drop(r, 1)) / 2 % 0x8000 * 0x8000 + U16(Drop(r, 3)) / 2 % 0x8000
  }

  datatype PesHeader = PesHeader(found: bool, stamps: Option<(nat, nat)>, rest: seq<byte>)

  /** The optional part of a PES header: flags, length, stamps. */
  function ReadStamps(flags: byte, length: byte, r: seq<byte>): PesHeader
  {
    if flags < 2 then PesHeader(true, None, Drop(r, length))
    else if flags == 3 then
      // a decoding time after the presentation time is brought back to it
      var pts := ReadStamp(r);
      var dts := ReadStamp(Drop(r, 5));
      PesHeader(true, Some((pts, if pts < dts then pts else dts)), Drop(Drop(r, 10), (length - 10) % 256))
    else
      PesHeader(true, Some((ReadStamp(r), ReadStamp(r))), Drop(Drop(r, 5), (length - 5) % 256))
  }

  /** readPESHeader: whether a header was there, the stamps if it has any, and what follows. */
  function ReadPesHeader(r: seq<byte>): PesHeader
  {
    if U32At(r) % 0x1_0000 / 0x40 != 7 then PesHeader(false, None, Drop(r, 4))
    else ReadStamps(U8(Drop(r, 7)) / 0x40, U8(Drop(r, 8)), Drop(r, 9))
  }

  // ----- one packet -----------------------------------------------------------------------

  function PacketPid(p: seq<byte>): int
  {
    U8(p) % 0x20 * 256 + U8(Drop(p, 1))
  }

  function PacketContent(p: seq<byte>): seq<byte>
  {
    if U8(Drop(p, 2)) / 0x20 % 2 == 1 then SkipAdaptation(Drop(p, 3)) else Drop(p, 3)
  }

  /** What the 187 bytes after a sync byte do. */
  function Packet(d: Demux, p: seq<byte>): (Demux, seq<Event>)
  {
    Dispatch(d, PacketPid(p), U8(Drop(p, 2)) % 16, U8(p) / 0x40 % 2 == 1, U8(Drop(p, 2)) / 0x10 % 2 == 1, PacketContent(p))
  }

  function Dispatch(d: Demux, pid: int, sequence: byte, hasHeader: bool, hasContent: bool, r: seq<byte>): (Demux, seq<Event>)
  {
    if pid == 0 then
      if hasHeader && hasContent then ParsePat(d, r) else (d, [])
    else if pid == 0x1FFF then (d, [])
    else if pid !in d.programs then
      if hasHeader && hasContent && pid in d.pmts then ParsePsi(d, pid, r) else (d, [])
    else if d.programs[pid].reader == NoReader then (d, [])
    else Payload(d, pid, sequence, hasHeader, hasContent, r)
  }

  /** The packets missing between two counters, in bytes. */
  function Missing(sequence: byte, previous: byte, hasContent: bool): nat
  {
    (sequence - previous - (if hasContent then 1 else 0)) % 16 * 184
  }

  /** A jump of the counter makes the program wait for a header, and is reported
      unless it is the program's first packet. */
  function LossEvents(pid: int, program: Program, lost: nat): seq<Event>
  {
    (if lost > 0 && !program.waitHeader then [Flush(pid)] else [])
    + (if lost > 0 && program.sequence != 0xFF then [Lost(pid, lost)] else [])
  }

  /** A packet of a known program. */
  function Payload(d: Demux, pid: int, sequence: byte, hasHeader: bool, hasContent: bool, r: seq<byte>): (Demux, seq<Event>)
    requires pid in d.programs
  {
    var program := d.programs[pid];
    var lost := Missing(sequence, program.sequence, hasContent);
    var header := if hasHeader then ReadPesHeader(r) else PesHeader(false, None, r);
    var wait := (program.waitHeader || lost > 0) && !header.found;
    (d.(programs := d.programs[pid := Program(program.reader, wait, sequence)]),
     LossEvents(pid, program, lost)
     + (if header.stamps.Some? then [Times(pid, header.stamps.value.0, header.stamps.value.1)] else [])
     + (if hasContent && !wait then [Read(pid, header.rest)] else []))
  }

  /** Packet after packet. */
  function Packets(d: Demux, ps: seq<seq<byte>>): (Demux, seq<Event>)
    decreases |ps|
  {
    if ps == [] then (d, [])
    else
      var (d1, e1) := Packets(d, ps[..|ps| - 1]);
      var (d2, e2) := Packet(d1, ps[|ps| - 1]);
      (d2, e1 + e2)
  }

  lemma PacketsNone(d: Demux)
    ensures Packets(d, []) == (d, [])
  {
  }

  lemma PacketsSnoc(d: Demux, ps: seq<seq<byte>>, p: seq<byte>)
    ensures Packets(d, ps + [p]).0 == Packet(Packets(d, ps).0, p).0
    ensures Packets(d, ps + [p]).1 == Packets(d, ps).1 + Packet(Packets(d, ps).0, p).1
  {
    hide Packet;
    assert (ps + [p])[..|ps + [p]| - 1] == ps;
  }

  // ----- finding packets in a byte stream -----------------------------------------------------

  /** The packets complete in `s`, whether a sync byte is pending, and the bytes kept. */
  datatype Cut = Cut(packets: seq<seq<byte>>, sync: bool, rest: seq<byte>)

  function Split(sync: bool, s: seq<byte>): (c: Cut)
    ensures !c.sync ==> c.rest == []
    ensures |c.rest| < 187
    ensures |c.rest| <= |s|
    decreases |s|
  {
    if !sync then
      if s == [] then Cut([], false, []) else Split(s[0] == 0x47, s[1..])
    else if |s| < 187 then Cut([], true, s)
    else
      var c := Split(false, s[187..]);
      Cut([s[..187]] + c.packets, c.sync, c.rest)
  }

  function Resume(done: seq<seq<byte>>, c: Cut): Cut
  {
    Cut(done + c.packets, c.sync, c.rest)
  }

  lemma SplitByte(s: seq<byte>)
    requires s != []
    ensures Split(false, s) == Split(s[0] == 0x47, s[1..])
  {
  }

  lemma SplitPacket(s: seq<byte>)
    requires |s| >= 187
    ensures Split(true, s) == Resume([s[..187]], Split(false, s[187..]))
  {
  }

  lemma SplitShort(sync: bool, s: seq<byte>)
    requires |s| < 187 && (s == [] || sync)
    ensures Split(sync, s) == Cut([], sync, s)
  {
  }

  lemma ResumeTwice(a: seq<seq<byte>>, b: seq<seq<byte>>, c: Cut)
    ensures Resume(a, Resume(b, c)) == Resume(a + b, c)
    ensures Resume([], c) == c
  {
    assert a + b + c.packets == a + (b + c.packets);
    assert [] + c.packets == c.packets;
  }

  lemma ScanDone(whole: Cut, done: seq<seq<byte>>, sync: bool, s: seq<byte>)
    requires |s| < 187 && (s == [] || sync)
    requires whole == Resume(done, Split(sync, s))
    ensures whole == Cut(done, sync, s)
  {
    SplitShort(sync, s);
    assert done + [] == done;
  }

  /** Any cutting of the stream finds the same packets, whatever the bytes are:
      what is kept after `a`, seen again with `b`, continues exactly. */
  lemma {:induction false} SplitAnywhere(sync: bool, a: seq<byte>, b: seq<byte>)
    ensures var c := Split(sync, a);
      Split(sync, a + b) == Resume(c.packets, Split(c.sync, c.rest + b))
    decreases |a|
  {
    if !sync {
      if a == [] {
        assert a + b == b;
      } else {
        assert (a + b)[1..] == a[1..] + b;
        SplitAnywhere(a[0] == 0x47, a[1..], b);
      }
    } else if |a| >= 187 {
      assert (a + b)[..187] == a[..187] && (a + b)[187..] == a[187..] + b;
      SplitAnywhere(false, a[187..], b);
    }
  }

  // ----- a stream in chunks ---------------------------------------------------------------------

  /** A reader between two chunks: its tables, a pending sync byte, and the bytes kept. */
  datatype Stream = Stream(demux: Demux, sync: bool, kept: seq<byte>)

  function Feed(s: Stream, chunk: seq<byte>): (Stream, seq<Event>)
  {
    var c := Split(s.sync, s.kept + chunk);
    var read := Packets(s.demux, c.packets);
    (Stream(read.0, c.sync, c.rest), read.1)
  }

  function FeedAll(s: Stream, chunks: seq<seq<byte>>): (Stream, seq<Event>)
    decreases |chunks|
  {
    if chunks == [] then (s, [])
    else
      var first := Feed(s, chunks[0]);
      var others := FeedAll(first.0, chunks[1..]);
      (others.0, first.1 + others.1)
  }

  // ----- the reader object ------------------------------------------------------------------------

  class TSReader {
    var programs: map<int, Program>
    var pmts: map<int, byte>
    var crcPAT: UInt32
    var syncFound: bool
    var kept: seq<byte>
    var events: seq<Event>

    function Whole(): Stream
      reads this
    {
      Stream(State(), syncFound, kept)
    }

    function State(): Demux
      reads this
    {
      Demux(programs, pmts, crcPAT)
    }

    constructor ()
      ensures Whole() == Stream(EMPTY, false, []) && events == []
    {
      programs, pmts, crcPAT := map[], map[], 0;
      syncFound, kept, events := false, [], [];
    }

    /** The bytes of a stream as they come: what the last parse kept is seen again
        in front of the new chunk. */
    method Receive(chunk: seq<byte>)
      modifies this
      ensures Whole() == Feed(old(Whole()), chunk).0
      ensures events == old(events) + Feed(old(Whole()), chunk).1
    {
      hide Split, Packets;
      var buffer := kept + chunk;
      var rest := Parse(buffer);
      kept := buffer[|buffer| - rest..];
    }

    /** parse: returns how many bytes at the end of `buffer` must be seen again. */
    method Parse(buffer: seq<byte>) returns (rest: nat)
      modifies `programs, `pmts, `crcPAT, `syncFound, `events
      ensures rest <= |buffer|
      ensures syncFound == Split(old(syncFound), buffer).sync
      ensures buffer[|buffer| - rest..] == Split(old(syncFound), buffer).rest
      ensures State() == Packets(old(State()), Split(old(syncFound), buffer).packets).0
      ensures events == old(events) + Packets(old(State()), Split(old(syncFound), buffer).packets).1
    {
      hide Packet, Packets, Split, Resume;
      PacketsNone(State());
      var pos := 0;
      ghost var done: seq<seq<byte>> := [];
      ghost var whole := Split(syncFound, buffer);
      assert buffer[0..] == buffer;
      ResumeTwice([], [], whole);
      while pos < |buffer|
        invariant pos <= |buffer|
        invariant whole == Resume(done, Split(syncFound, buffer[pos..]))
        invariant State() == Packets(old(State()), done).0
        invariant events == old(events) + Packets(old(State()), done).1
      {
        ghost var ahead := buffer[pos..];
        if !syncFound {
          SplitByte(ahead);
          syncFound := buffer[pos] == 0x47;
          pos := pos + 1;
          assert ahead[1..] == buffer[pos..];
        } else {
          if |buffer| - pos < 187 {
            ScanDone(whole, done, true, ahead);
            return |buffer| - pos;
          }
          SplitPacket(ahead);
          var packet := buffer[pos..pos + 187];
          pos := pos + 187;
          syncFound := false;
          assert ahead[..187] == packet && ahead[187..] == buffer[pos..];
          ResumeTwice(done, [packet], Split(false, buffer[pos..]));
          PacketsSnoc(old(State()), done, packet);
          ParsePacket(packet);
          done := done + [packet];
        }
      }
      ScanDone(whole, done, syncFound, buffer[pos..]);
      return 0;
    }

    method ParsePacket(packet: seq<byte>)
      requires |packet| == 187
      modifies `programs, `pmts, `crcPAT, `events
      ensures State() == Packet(old(State()), packet).0
      ensures events == old(events) + Packet(old(State()), packet).1
    {
      hide ParsePat, ParsePsi, Payload, SkipAdaptation;
      // a cursor over the packet: what is left of it
      var first := packet[0];
      var hasHeader := first / 0x40 % 2 == 1;
      var pid := first as int % 0x20 * 256 + packet[1] as int;
      var flags := packet[2];
      var hasContent := flags / 0x10 % 2 == 1;
      var r := packet[3..];
      if flags / 0x20 % 2 == 1 {
        r := SkipAdaptation(r);
      }
      if pid == 0 {
        if hasHeader && hasContent {
          ParseAssociation(r);
        }
        return;
      }
      if pid == 0x1FFF {
        return;
      }
      if pid !in programs {
        if hasHeader && hasContent && pid in pmts {
          ParseSection(pid, r);
        }
        return;
      }
      if programs[pid].reader == NoReader {
        return;
      }
      ParsePayload(pid, flags % 16, hasHeader, hasContent, r);
    }

    method ParsePayload(pid: int, sequence: byte, hasHeader: bool, hasContent: bool, content: seq<byte>)
      requires pid in programs
      modifies `programs, `events
      ensures State() == Payload(old(State()), pid, sequence, hasHeader, hasContent, content).0
      ensures events == old(events) + Payload(old(State()), pid, sequence, hasHeader, hasContent, content).1
    {
      hide ReadPesHeader, Missing;
      var r, program := content, programs[pid];
      var raised: seq<Event> := [];
      var lost := Missing(sequence, program.sequence, hasContent);
      var wait := program.waitHeader;
      if lost > 0 {
        if !wait {
          wait := true;
          raised := [Flush(pid)];
        }
        if program.sequence != 0xFF {
          raised := raised + [Lost(pid, lost)];
        }
      }
      assert raised == LossEvents(pid, program, lost);
      hide LossEvents;
      if hasHeader {
        var header := ReadPesHeader(r);
        r := header.rest;
        if header.found {
          wait := false;
        }
        if header.stamps.Some? {
          raised := raised + [Times(pid, header.stamps.value.0, header.stamps.value.1)];
        }
      }
      if hasContent && !wait {
        raised := raised + [Read(pid, r)];
      }
      assert raised == Payload(State(), pid, sequence, hasHeader, hasContent, content).1;
      events := events + raised;
      programs := programs[pid := Program(program.reader, wait, sequence)];
    }

    method ParseAssociation(data: seq<byte>)
      modifies `programs, `pmts, `crcPAT, `events
      ensures State() == ParsePat(old(State()), data).0
      ensures events == old(events) + ParsePat(old(State()), data).1
    {
      var r := PatTable(data);
      if U8(r) != 0 {
        return;
      }
      r := PatPrograms(r);
      ghost var all := AddPmts(r, map[]);
      var found: map<int, byte> := map[];
      while |r| > 4
        invariant AddPmts(r, found) == all
      {
        r := Drop(r, 2);
        var pid := U16(r) % 0x2000;
        if pid !in found {
          found := found[pid := 0xFF];
        }
        r := Drop(r, 2);
      }
      var crc := U32At(r);
      if crc == crcPAT {
        return;
      }
      if crcPAT != 0 {
        events := events + FlushFrom(programs, 0) + [ResetSource];
        programs := map[];
      }
      pmts, crcPAT := found, crc;
    }

    method ParseSection(pid: int, data: seq<byte>)
      requires pid in pmts
      modifies `programs, `pmts, `events
      ensures State() == ParsePsi(old(State()), pid, data).0
      ensures events == old(events) + ParsePsi(old(State()), pid, data).1
    {
      hide SetPrograms, MapStreams, MapVersion, Table;
      if data == [] {
        return;
      }
      var skip, rest := data[0], data[1..];
      if skip >= |rest| || rest[skip] != 2 {
        return;
      }
      var r := rest[skip + 1..];
      var table := Table(Drop(r, 2), U16(r) % 0x400);
      if |table| < 9 || MapVersion(table) == pmts[pid] {
        return;
      }
      pmts := pmts[pid := MapVersion(table)];
      ParseStreams(MapStreams(table));
    }

    method ParseStreams(streams: seq<byte>)
      modifies `programs, `events
      ensures State() == SetPrograms(old(State()), streams).0
      ensures events == old(events) + SetPrograms(old(State()), streams).1
    {
      hide ReaderOf, AfterStream, SetProgram;
      var r := streams;
      var raised: seq<Event> := [];
      assert raised + SetPrograms(State(), r).1 == SetPrograms(State(), r).1;
      while |r| > 4
        invariant SetPrograms(State(), r).0 == SetPrograms(old(State()), streams).0
        invariant raised + SetPrograms(State(), r).1 == SetPrograms(old(State()), streams).1
        invariant pmts == old(pmts) && crcPAT == old(crcPAT) && events == old(events)
      {
        var step := SetProgram(State(), StreamPid(r), ReaderOf(U8(r)));
        SetProgramKeeps(State(), StreamPid(r), ReaderOf(U8(r)));
        programs := step.0.programs;
        ghost var later := SetPrograms(step.0, AfterStream(r));
        assert raised + (step.1 + later.1) == raised + step.1 + later.1;
        raised := raised + step.1;
        r := AfterStream(r);
      }
      events := events + raised;
    }
  }

  lemma SetProgramKeeps(d: Demux, pid: int, reader: Reader)
    ensures SetProgram(d, pid, reader).0.pmts == d.pmts
    ensures SetProgram(d, pid, reader).0.crcPAT == d.crcPAT
  {
  }
}
