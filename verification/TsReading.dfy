/** How TSReader reads each kind of packet TSWriter emits. */
module TsReading {
  import opened Bytes
  import opened Options
  import opened TsWriter
  import TsReader

  // ----- packet header ------------------------------------------------------------

  lemma HeadWord(start: bool, pid: int)
    requires 0 <= pid < 0x2000
    ensures var w := (if start then 0x4000 else 0) + pid;
      w / 256 < 256 && (w / 256 / 0x40 % 2 == 1) == start && w / 256 % 0x20 * 256 + w % 256 == pid
  {
    assert pid / 256 < 0x20;
  }

  lemma HeadFlags(adapted: bool, counter: byte)
    ensures var flags := (if adapted then 0x30 else 0x10) + counter % 16;
      (flags / 0x20 % 2 == 1) == adapted && flags / 0x10 % 2 == 1 && flags % 16 == counter % 16
  {
  }

  /** The reader takes back the fields of the packet header. */
  lemma HeadReads(d: TsReader.Demux, start: bool, pid: int, adapted: bool, counter: byte, content: seq<byte>)
    requires 0 <= pid < 0x2000
    ensures TsReader.Packet(d, (Head(start, pid, adapted, counter) + content)[1..])
      == TsReader.Dispatch(d, pid, counter % 16, start, true, if adapted then TsReader.SkipAdaptation(content) else content)
  {
    hide TsReader.Dispatch, TsReader.SkipAdaptation;
    HeadWord(start, pid);
    HeadFlags(adapted, counter);
    var flags: byte := (if adapted then 0x30 else 0x10) + counter % 16;
    var w := (if start then 0x4000 else 0) + pid;
    ThreeBytes(w / 256, w % 256, flags, content);
    assert (Head(start, pid, adapted, counter) + content)[1..] == [w / 256, w % 256, flags] + content;
  }

  lemma ThreeBytes(a: byte, b: byte, c: byte, rest: seq<byte>)
    ensures var t := [a, b, c] + rest;
      U8(t) == a && U8(Drop(t, 1)) == b && U8(Drop(t, 2)) == c && Drop(t, 3) == rest
  {
  }

  lemma FieldSkipped(m: Mux, pid: int, time: UInt32, randomAccess: bool, fillSize: nat, rest: seq<byte>)
    requires 1 <= fillSize <= 184
    ensures TsReader.SkipAdaptation(Adaptation(m, pid, time, randomAccess, fillSize) + rest) == rest
  {
    hide Adaptation, TsReader.SkipAdaptation;
    var field := Adaptation(m, pid, time, randomAccess, fillSize);
    TsReader.SkipAdaptationSkips(field + rest);
    DropAppend(field, rest);
  }

  // ----- time stamps ----------------------------------------------------------------

  lemma StampParts(t: nat)
    requires t < 0x2_0000_0000
    ensures t / 0x4000_0000 < 8
    ensures t == t / 0x4000_0000 * 0x4000_0000 + t / 0x8000 % 0x8000 * 0x8000 + t % 0x8000
  {
    assert t / 0x4000_0000 == t / 0x8000 / 0x8000;
  }

  lemma StampReads(t: nat, rest: seq<byte>)
    requires t < 0x2_0000_0000
    ensures TsReader.ReadStamp(Stamp(t) + rest) == t
  {
    hide Be16, U16;
    var a, b, c := t / 0x4000_0000, t / 0x8000 % 0x8000, t % 0x8000;
    StampParts(t);
    var r1, r3 := Be16(b * 2 + 1) + (Be16(c * 2 + 1) + rest), Be16(c * 2 + 1) + rest;
    var s := [a * 2 + 0x21] + r1;
    assert Stamp(t) + rest == s;
    DropAppend([a * 2 + 0x21], r1);
    ReadBe16(b * 2 + 1, r3);
    DropDrop(s, 1, 2);
    ReadBe16(c * 2 + 1, rest);
    MarkerBits(a, b, c);
  }

  lemma MarkerBits(a: nat, b: nat, c: nat)
    requires a < 8 && b < 0x8000 && c < 0x8000
    ensures (a * 2 + 0x21) / 2 % 8 == a
    ensures (b * 2 + 1) / 2 % 0x8000 == b
    ensures (c * 2 + 1) / 2 % 0x8000 == c
  {
    assert (a * 2 + 0x21) / 2 == a + 16;
  }

  // ----- PES header -------------------------------------------------------------------

  /** The start code is recognised, and the two fields behind it are reached. */
  lemma StartCode(code: UInt32, length: UInt16, flags: byte, size: byte, rest: seq<byte>)
    requires code in {0x1E0, 0x1C0, 0x1FF}
    ensures TsReader.ReadPesHeader(Be32(code) + Be16(length) + [0x80, flags, size] + rest)
      == TsReader.ReadStamps(flags / 0x40, size, rest)
  {
    hide TsReader.ReadStamps;
    var r := Be32(code) + Be16(length) + [0x80, flags, size] + rest;
    assert r == Be32(code) + (Be16(length) + [0x80, flags, size] + rest);
    ReadBe32(code, Be16(length) + [0x80, flags, size] + rest);
    assert Drop(r, 7) == [flags, size] + rest;
    assert Drop(r, 8) == [size] + rest;
    assert Drop(r, 9) == rest;
  }

  lemma StampsRead(time: UInt32, compositionOffset: UInt16, payload: seq<byte>)
    requires Dts(time) != 0
    ensures TsReader.ReadStamps(if compositionOffset != 0 then 3 else 2, StampsLength(compositionOffset),
                                Stamps(time, compositionOffset) + payload)
      == TsReader.PesHeader(true, Some((Pts(time, compositionOffset), Dts(time) as nat)), payload)
  {
    hide Dts, Stamp, TsReader.ReadStamp;
    var pts, dts := Pts(time, compositionOffset), Dts(time);
    if compositionOffset != 0 {
      var r1 := Stamp(dts) + payload;
      assert Stamps(time, compositionOffset) + payload == Stamp(pts) + r1;
      StampReads(pts, r1);
      StampReads(dts, payload);
      DropAppend(Stamp(pts), r1);
      DropAppend(Stamp(dts), payload);
      DropDrop(Stamp(pts) + r1, 5, 5);
    } else {
      StampReads(dts, payload);
      DropAppend(Stamp(dts), payload);
    }
  }

  /** Both stamps come back whole, and the payload begins right behind them. */
  lemma PesReads(pid: int, time: UInt32, compositionOffset: UInt16, size: UInt32, payload: seq<byte>)
    requires size > 0 && Dts(time) != 0
    ensures TsReader.ReadPesHeader(PesHeader(pid, time, compositionOffset, size) + payload)
      == TsReader.PesHeader(true, Some((Pts(time, compositionOffset), Dts(time) as nat)), payload)
  {
    hide Dts, Stamps, Be32, Be16, TsReader.ReadStamps, TsReader.ReadPesHeader;
    var length := StampsLength(compositionOffset);
    var total := Wrap32(size + 3 + length);
    var code := if pid < FIRST_AUDIO_PID then 0x1E0 else 0x1C0;
    var flags := if compositionOffset != 0 then 0xC0 else 0x80;
    var stamps := Stamps(time, compositionOffset);
    var short := if total > 0xFFFF then 0 else total;
    StartCode(code, short, flags, length, stamps + payload);
    Associative(Be32(code) + Be16(short) + [0x80, flags, length], stamps, payload);
    StampsRead(time, compositionOffset, payload);
  }

  lemma EmptyPesReads(pid: int, time: UInt32, compositionOffset: UInt16)
    ensures TsReader.ReadPesHeader(PesHeader(pid, time, compositionOffset, 0))
      == TsReader.PesHeader(true, None, [])
  {
    hide TsReader.ReadPesHeader;
    var r := PesHeader(pid, time, compositionOffset, 0);
    assert r == Be32(0x1FF) + Be16(3) + [0x80, 0, 0] + [];
    StartCode(0x1FF, 3, 0, 0, []);
  }

  // ----- tables ---------------------------------------------------------------------------

  /** Table packets also carry the priority bit, which the reader passes over. */
  lemma TableHeadReads(d: TsReader.Demux, pid: byte, counter: byte, content: seq<byte>)
    ensures TsReader.Packet(d, [0x60, pid, 0x10 + counter % 16] + content)
      == TsReader.Dispatch(d, pid, counter % 16, true, true, content)
  {
    hide TsReader.Dispatch;
    var t := [0x60, pid, 0x10 + counter % 16] + content;
    assert Drop(t, 3) == content;
    assert Drop(t, 1)[0] == pid && Drop(t, 2)[0] == 0x10 + counter % 16;
  }

  lemma PatReads(d: TsReader.Demux, counter: byte)
    ensures TsReader.Packet(d, PatPacket(counter)[1..])
      == TsReader.Associate(d, map[PMT_PID := 0xFF], Crc(PAT_SECTION))
  {
    hide TsReader.Associate, TsReader.Packet, TsReader.AddPmts, Crc;
    var crc := Crc(PAT_SECTION);
    var table := PAT_SECTION + Be32(crc) + Fill(167, 0xFF);
    var r := [0x00] + table;
    assert PatPacket(counter)[1..] == [0x60, 0x00, 0x10 + counter % 16] + r;
    TableHeadReads(d, 0, counter, r);
    assert Drop(r, 1) == table;
    assert TsReader.PatTable(r) == table;
    assert Drop(table, 1)[0] == 0xB0 && Drop(table, 1)[1] == 0x0D;
    PatBody(crc, Fill(167, 0xFF));
    PatPmts(crc);
  }

  lemma PatBody(crc: UInt32, stuffing: seq<byte>)
    ensures TsReader.PatPrograms(PAT_SECTION + Be32(crc) + stuffing) == [0x00, 0x01, 0xE0, 0x20] + Be32(crc)
  {
    hide Be32;
    var table := PAT_SECTION + Be32(crc) + stuffing;
    assert Drop(table, 1)[0] == 0xB0 && Drop(table, 1)[1] == 0x0D;
    assert U16(Drop(table, 1)) % 0x400 == 13;
    var section := [0x00, 0x01, 0xC1, 0x00, 0x00, 0x00, 0x01, 0xE0, 0x20] + Be32(crc);
    assert TsReader.Table(Drop(table, 3), 13) == section;
    assert Drop(section, 5) == [0x00, 0x01, 0xE0, 0x20] + Be32(crc);
  }

  lemma PatPmts(crc: UInt32)
    ensures TsReader.AddPmts([0x00, 0x01, 0xE0, 0x20] + Be32(crc), map[]).0 == map[PMT_PID := 0xFF]
    ensures U32At(TsReader.AddPmts([0x00, 0x01, 0xE0, 0x20] + Be32(crc), map[]).1) == crc
  {
    var r := [0x00, 0x01, 0xE0, 0x20] + Be32(crc);
    var r1 := Drop(r, 2);
    assert r1 == [0xE0, 0x20] + Be32(crc);
    assert U16(r1) % 0x2000 == 0x20;
    var r2 := Drop(r1, 2);
    assert r2 == Be32(crc) == Be32(crc) + [];
    ReadBe32(crc, []);
    assert TsReader.AddPmts(r2, map[0x20 := 0xFF]) == (map[0x20 := 0xFF], r2);
  }

  /** What follows the length field of the program map, up to the packet's end. */
  function PmtRest(version: byte, s: seq<(int, byte)>): seq<byte>
    requires |s| <= MAX_TRACKS
  {
    var section := PmtSection(version, s);
    PmtBody(version, s) + Be32(Crc(section)) + Fill(179 - |section|, 0xFF)
  }

  lemma PmtLayout(counter: byte, version: byte, s: seq<(int, byte)>)
    requires |s| <= MAX_TRACKS
    ensures PmtPacket(counter, version, s)[1..] == [0x60, 0x20, 0x10 + counter % 16]
      + ([0x00] + ([0x02] + (Be16(0xB000 + (|PmtBody(version, s)| + 4) % 0x400) + PmtRest(version, s))))
  {
    hide Crc, PmtBody, Be32, Be16;
    var section, body := PmtSection(version, s), PmtBody(version, s);
    var head := [0x47, 0x60, 0x20, 0x10 + counter % 16];
    assert head + [0x00] == [0x47, 0x60, 0x20, 0x10 + counter % 16, 0x00];
    var length := Be16(0xB000 + (|body| + 4) % 0x400);
    Regroup(head, [0x00], [0x02], length, body, Be32(Crc(section)), Fill(179 - |section|, 0xFF));
    TailOfHead(counter, [0x00] + ([0x02] + (length + PmtRest(version, s))));
  }

  lemma TailOfHead(counter: byte, r: seq<byte>)
    ensures ([0x47, 0x60, 0x20, 0x10 + counter % 16] + r)[1..] == [0x60, 0x20, 0x10 + counter % 16] + r
  {
  }

  lemma PmtReads(d: TsReader.Demux, counter: byte, version: byte, s: seq<(int, byte)>)
    requires s != [] && |s| <= MAX_TRACKS && PMT_PID in d.pmts && PMT_PID !in d.programs
    ensures TsReader.Packet(d, PmtPacket(counter, version, s)[1..])
      == if version % 32 == d.pmts[PMT_PID] then (d, [])
         else TsReader.SetPrograms(d.(pmts := d.pmts[PMT_PID := version % 32]),
                                   Entries(s) + Be32(Crc(PmtSection(version, s))))
  {
    hide TsReader.ParsePmt, TsReader.ParsePsi, TsReader.SetPrograms, TsReader.Packet, Crc, Entries, PmtBody, Be32, Be16, PmtPacket, PmtSection;
    var body, section := PmtBody(version, s), PmtSection(version, s);
    var data := Be16(0xB000 + (|body| + 4) % 0x400) + PmtRest(version, s);
    PmtLayout(counter, version, s);
    TableHeadReads(d, PMT_PID, counter, [0x00] + ([0x02] + data));
    SectionReads(d, PMT_PID, data);
    MapReads(d, version, s, Crc(section), Fill(179 - |section|, 0xFF));
  }

  lemma Regroup(a: seq<byte>, b: seq<byte>, c: seq<byte>, d: seq<byte>, e: seq<byte>, f: seq<byte>, g: seq<byte>)
    ensures a + b + (c + d + e) + f + g == a + (b + (c + (d + (e + f + g))))
  {
    Associative(c, d, e);
    Associative(a + b, c + (d + e), f);
    Associative(c, d + e, f);
    Associative(d, e, f);
    Associative(a + b, c + (d + (e + f)), g);
    Associative(c, d + (e + f), g);
    Associative(d, e + f, g);
    Associative(a, b, c + (d + (e + f + g)));
  }

  lemma SectionReads(d: TsReader.Demux, pid: int, data: seq<byte>)
    requires pid in d.pmts
    ensures TsReader.ParsePsi(d, pid, [0x00] + ([0x02] + data)) == TsReader.ParsePmt(d, pid, data)
  {
    hide TsReader.ParsePmt;
    var r := [0x00] + ([0x02] + data);
    assert r[1..] == [0x02] + data;
    assert r[1..][1..] == data;
  }

  lemma MapReads(d: TsReader.Demux, version: byte, s: seq<(int, byte)>, crc: UInt32, stuffing: seq<byte>)
    requires s != [] && |s| <= MAX_TRACKS && PMT_PID in d.pmts
    ensures var body := PmtBody(version, s);
      TsReader.ParsePmt(d, PMT_PID, Be16(0xB000 + (|body| + 4) % 0x400) + (body + Be32(crc) + stuffing))
      == if version % 32 == d.pmts[PMT_PID] then (d, [])
         else TsReader.SetPrograms(d.(pmts := d.pmts[PMT_PID := version % 32]), Entries(s) + Be32(crc))
  {
    hide TsReader.SetPrograms, Entries, PmtBody, Be16, Be32, U16, TsReader.MapVersion, TsReader.MapStreams;
    var body := PmtBody(version, s);
    var w := 0xB000 + (|body| + 4) % 0x400;
    var after := body + Be32(crc) + stuffing;
    ReadBe16(w, after);
    assert w % 0x400 == |body| + 4;
    assert TsReader.Table(after, |body| + 4) == body + Be32(crc);
    TableReads(version, s, crc);
  }

  lemma TableReads(version: byte, s: seq<(int, byte)>, crc: UInt32)
    requires s != []
    ensures var table := PmtBody(version, s) + Be32(crc);
      TsReader.MapVersion(table) == version % 32 && TsReader.MapStreams(table) == Entries(s) + Be32(crc)
  {
    hide Entries, Be32;
    var table := PmtBody(version, s) + Be32(crc);
    assert Drop(table, 2)[0] == 0xC1 + (version % 32) * 2;
    assert TsReader.MapVersion(table) == version % 32;
    var streams := Entries(s) + Be32(crc);
    assert Drop(table, 7) == Be16(0xF000) + streams;
    ReadBe16(0xF000, streams);
    assert Drop(table, 9) == streams;
  }

  // ----- the streams of the map ---------------------------------------------------------------

  predicate Distinct(s: seq<(int, byte)>)
  {
    forall i, j :: 0 <= i < j < |s| ==> s[i].0 != s[j].0
  }

  predicate Supported(s: seq<(int, byte)>)
  {
    forall i :: 0 <= i < |s| ==> 0 <= s[i].0 < 512 && TsReader.ReaderOf(s[i].1) != TsReader.NoReader
  }

  /** Only readers being replaced: nothing read, nothing lost. */
  predicate Quiet(events: seq<TsReader.Event>)
  {
    forall i :: 0 <= i < |events| ==> events[i].Flush?
  }

  predicate InMap(q: int, s: seq<(int, byte)>)
  {
    exists i :: 0 <= i < |s| && s[i].0 == q
  }

  /** Every stream of `s` has the reader of its type, and no other program moved. */
  ghost predicate Assigned(d: TsReader.Demux, d': TsReader.Demux, s: seq<(int, byte)>)
  {
    && d'.pmts == d.pmts && d'.crcPAT == d.crcPAT
    && (forall i :: 0 <= i < |s| ==>
        s[i].0 in d'.programs
        && d'.programs[s[i].0] == TsReader.ProgramOf(d, s[i].0).(reader := TsReader.ReaderOf(s[i].1)))
    && (forall q :: q in d'.programs <==> q in d.programs || InMap(q, s))
    && (forall q :: q in d.programs && !InMap(q, s) ==> d'.programs[q] == d.programs[q])
  }

  lemma EntryFields(e: (int, byte), rest: seq<byte>)
    requires 0 <= e.0 < 512
    ensures var r := Entry(e) + rest;
      U8(r) == e.1 && U16(Drop(r, 1)) == 0xE000 + e.0 && U16(Drop(r, 3)) == 0xF000 && Drop(r, 5) == rest
  {
    hide Be16, U16;
    var r3 := Be16(0xF000) + rest;
    var r1 := Be16(0xE000 + e.0) + r3;
    var r := [e.1] + r1;
    assert Entry(e) + rest == r;
    DropAppend([e.1], r1);
    ReadBe16(0xE000 + e.0, r3);
    DropDrop(r, 1, 2);
    ReadBe16(0xF000, rest);
    DropDrop(r, 3, 2);
  }

  lemma EntryReads(e: (int, byte), rest: seq<byte>)
    requires 0 <= e.0 < 512 && TsReader.ReaderOf(e.1) != TsReader.NoReader
    ensures U8(Entry(e) + rest) == e.1
    ensures TsReader.StreamPid(Entry(e) + rest) == e.0
    ensures TsReader.AfterStream(Entry(e) + rest) == rest
  {
    hide TsReader.ReaderOf, Entry, U16, U8, Drop;
    EntryFields(e, rest);
  }

  lemma {:induction false} EntriesRead(d: TsReader.Demux, s: seq<(int, byte)>, crc: seq<byte>)
    requires Distinct(s) && Supported(s) && |crc| == 4
    ensures Assigned(d, TsReader.SetPrograms(d, Entries(s) + crc).0, s)
    ensures Quiet(TsReader.SetPrograms(d, Entries(s) + crc).1)
    decreases |s|
  {
    hide Entry, TsReader.ReaderOf, TsReader.AfterStream, TsReader.StreamPid;
    if s == [] {
      assert Entries(s) + crc == crc;
    } else {
      var rest := Entries(s[1..]) + crc;
      assert Entries(s) + crc == Entry(s[0]) + rest;
      EntryReads(s[0], rest);
      var d1 := TsReader.SetProgram(d, s[0].0, TsReader.ReaderOf(s[0].1)).0;
      EntriesRead(d1, s[1..], crc);
      AssignedStep(d, d1, TsReader.SetPrograms(d1, rest).0, s);
    }
  }

  lemma AssignedStep(d: TsReader.Demux, d1: TsReader.Demux, d2: TsReader.Demux, s: seq<(int, byte)>)
    requires Distinct(s) && s != []
    requires d1 == TsReader.SetProgram(d, s[0].0, TsReader.ReaderOf(s[0].1)).0
    requires Assigned(d1, d2, s[1..])
    ensures Assigned(d, d2, s)
  {
    hide TsReader.ReaderOf;
    forall q ensures InMap(q, s) <==> q == s[0].0 || InMap(q, s[1..]) {
      if InMap(q, s) {
        var i :| 0 <= i < |s| && s[i].0 == q;
        assert i > 0 ==> s[1..][i - 1].0 == q;
      }
      if InMap(q, s[1..]) {
        var i :| 0 <= i < |s[1..]| && s[1..][i].0 == q;
        assert s[i + 1].0 == q;
      }
    }
    assert !InMap(s[0].0, s[1..]);
    forall i | 0 <= i < |s|
      ensures s[i].0 in d2.programs
        && d2.programs[s[i].0] == TsReader.ProgramOf(d, s[i].0).(reader := TsReader.ReaderOf(s[i].1))
    {
      if i > 0 {
        assert s[1..][i - 1] == s[i];
      }
    }
  }
}
