/** TSReader on the streams of any multiplexer: packet heads, tables and PES headers as
    ISO/IEC 13818-1 lays them out. */
module TsTables {
  import opened Bytes
  import opened Options
  import opened TsReader

  // ----- packet heads (section 2.4.3.2) ---------------------------------------------------

  /** The bits of the four bytes a packet begins with, behind its sync byte. */
  datatype Head = Head(error: bool, start: bool, priority: bool, pid: nat,
                       scrambling: nat, adapted: bool, content: bool, counter: nat)

  predicate IsHead(h: Head)
  {
    h.pid < 0x2000 && h.scrambling < 4 && h.counter < 16
  }

  function Bit(b: bool, weight: nat): nat
  {
    if b then weight else 0
  }

  function HeadBytes(h: Head): (s: seq<byte>)
    requires IsHead(h)
    ensures |s| == 3
  {
    [Bit(h.error, 0x80) + Bit(h.start, 0x40) + Bit(h.priority, 0x20) + h.pid / 256, h.pid % 256,
     h.scrambling * 0x40 + Bit(h.adapted, 0x20) + Bit(h.content, 0x10) + h.counter]
  }

  lemma FirstBits(h: Head)
    requires IsHead(h)
    ensures var b := Bit(h.error, 0x80) + Bit(h.start, 0x40) + Bit(h.priority, 0x20) + h.pid / 256;
      (b / 0x40 % 2 == 1) == h.start && b % 0x20 * 256 + h.pid % 256 == h.pid
  {
    assert h.pid / 256 < 0x20;
  }

  lemma LastBits(h: Head)
    requires IsHead(h)
    ensures var b := h.scrambling * 0x40 + Bit(h.adapted, 0x20) + Bit(h.content, 0x10) + h.counter;
      (b / 0x20 % 2 == 1) == h.adapted && (b / 0x10 % 2 == 1) == h.content && b % 16 == h.counter
  {
    var a, c := if h.adapted then 1 else 0, if h.content then 1 else 0;
    Nibbles(h.scrambling * 4 + a * 2 + c, h.counter);
    assert (h.scrambling * 4 + a * 2 + c) / 2 == h.scrambling * 2 + a;
    var b := h.scrambling * 0x40 + Bit(h.adapted, 0x20) + Bit(h.content, 0x10) + h.counter;
    assert b / 0x20 == b / 0x10 / 2;
  }

  lemma Nibbles(high: nat, low: nat)
    requires low < 16
    ensures (high * 16 + low) / 16 == high && (high * 16 + low) % 16 == low
  {
  }

  lemma HeadParts(h: Head, r: seq<byte>)
    requires IsHead(h)
    ensures var p := HeadBytes(h) + r;
      && p[0] == HeadBytes(h)[0] && U8(Drop(p, 1)) == HeadBytes(h)[1] && U8(Drop(p, 2)) == HeadBytes(h)[2] && Drop(p, 3) == r
  {
    hide HeadBytes;
  }

  lemma FieldPassed(field: seq<byte>, rest: seq<byte>)
    requires 1 <= |field| <= 256 && field[0] == |field| - 1
    ensures SkipAdaptation(field + rest) == rest
  {
    hide SkipAdaptation;
    SkipAdaptationSkips(field + rest);
    DropAppend(field, rest);
  }

  /** Whatever its error, priority and scrambling bits, a packet goes by its pid, its start
      flag, its content flag and its counter; an adaptation field is passed over whole. */
  lemma AnyHeadReads(d: Demux, h: Head, field: seq<byte>, rest: seq<byte>)
    requires IsHead(h) && (if h.adapted then 1 <= |field| <= 256 && field[0] == |field| - 1 else field == [])
    ensures Packet(d, HeadBytes(h) + (field + rest)) == Dispatch(d, h.pid, h.counter, h.start, h.content, rest)
  {
    hide Dispatch, SkipAdaptation, Bit, Drop;
    HeadParts(h, field + rest);
    FirstBits(h);
    LastBits(h);
    if h.adapted {
      FieldPassed(field, rest);
    } else {
      assert [] + rest == rest;
    }
  }

  // ----- association tables (section 2.4.4.3) --------------------------------------------------

  /** A program number and the pid of its map. */
  function Association(a: (UInt16, nat)): (s: seq<byte>)
    ensures |s| == 4
  {
    Be16(a.0) + Be16(0xE000 + a.1 % 0x2000)
  }

  function Associations(all: seq<(UInt16, nat)>): (s: seq<byte>)
    ensures |s| == 4 * |all|
  {
    if all == [] then [] else Association(all[0]) + Associations(all[1..])
  }

  predicate ArePids(all: seq<(UInt16, nat)>)
  {
    forall i :: 0 <= i < |all| ==> all[i].1 < 0x2000
  }

  /** Every pid named has a map with no version yet. */
  predicate Maps(pmts: map<int, byte>, before: map<int, byte>, all: seq<(UInt16, nat)>)
  {
    && (forall q :: q in pmts ==> q in before || exists i :: 0 <= i < |all| && all[i].1 == q)
    && (forall q :: q in before ==> q in pmts && pmts[q] == before[q])
    && (forall i :: 0 <= i < |all| ==> all[i].1 in pmts && (all[i].1 in before || pmts[all[i].1] == 0xFF))
  }

  lemma OneAssociation(a: (UInt16, nat), rest: seq<byte>)
    requires a.1 < 0x2000
    ensures var r := Association(a) + rest;
      U16(Drop(r, 2)) % 0x2000 == a.1 && Drop(Drop(r, 2), 2) == rest
  {
    hide U16, Be16, Drop;
    var pid := Be16(0xE000 + a.1);
    assert a.1 % 0x2000 == a.1;
    assert Association(a) + rest == Be16(a.0) + (pid + rest);
    DropAppend(Be16(a.0), pid + rest);
    ReadBe16(0xE000 + a.1, rest);
    assert 0xE000 + a.1 == 7 * 0x2000 + a.1;
  }

  lemma {:induction false} AssociationsRead(all: seq<(UInt16, nat)>, crc: seq<byte>, before: map<int, byte>)
    requires ArePids(all) && |crc| == 4
    ensures var r := AddPmts(Associations(all) + crc, before);
      Maps(r.0, before, all) && r.1 == crc
    decreases |all|
  {
    hide Association, U16, Drop;
    if all == [] {
      assert [] + crc == crc;
    } else {
      var later := Associations(all[1..]) + crc;
      assert Associations(all) + crc == Association(all[0]) + later;
      OneAssociation(all[0], later);
      var q := all[0].1;
      var next := if q in before then before else before[q := 0xFF];
      AssociationsRead(all[1..], crc, next);
      MapsMore(AddPmts(later, next).0, before, next, all);
    }
  }

  lemma MapsMore(pmts: map<int, byte>, before: map<int, byte>, next: map<int, byte>, all: seq<(UInt16, nat)>)
    requires all != [] && Maps(pmts, next, all[1..])
    requires next == if all[0].1 in before then before else before[all[0].1 := 0xFF]
    ensures Maps(pmts, before, all)
  {
    forall q | q in pmts && q !in before ensures exists i :: 0 <= i < |all| && all[i].1 == q {
      if q in next {
        assert all[0].1 == q;
      } else {
        var i :| 0 <= i < |all[1..]| && all[1..][i].1 == q;
        assert all[i + 1].1 == q;
      }
    }
    forall i | 0 <= i < |all| ensures all[i].1 in pmts && (all[i].1 in before || pmts[all[i].1] == 0xFF) {
      if i > 0 {
        assert all[i] == all[1..][i - 1];
      }
    }
  }

  /** A section: its table's number, its length, its body, and anything behind it. */
  function Section(number: byte, body: seq<byte>, more: seq<byte>): seq<byte>
    requires |body| < 0x400
  {
    [number] + (Be16(0xB000 + |body|) + (body + more))
  }

  /** Behind a pointer field of `skip`. */
  function Pointed(skip: seq<byte>, section: seq<byte>): seq<byte>
    requires |skip| < 256
  {
    [|skip| as byte] + (skip + section)
  }

  lemma PointerSkipped(skip: seq<byte>, r: seq<byte>)
    requires |skip| < 256
    ensures PatTable(Pointed(skip, r)) == r
  {
    DropAppend([|skip| as byte], skip + r);
    DropAppend(skip, r);
  }

  /** A section is cut at the length it says. */
  lemma SectionCut(number: byte, body: seq<byte>, more: seq<byte>)
    requires |body| < 0x400
    ensures var r := Section(number, body, more);
      U8(r) == number && Table(Drop(r, 3), U16(Drop(r, 1)) % 0x400) == body
  {
    hide U16, Be16;
    var rest := Be16(0xB000 + |body|) + (body + more);
    DropAppend([number], rest);
    ReadBe16(0xB000 + |body|, body + more);
    DropDrop([number] + rest, 1, 2);
    SizeBits(|body|);
    assert (body + more)[..|body|] == body;
  }

  lemma SizeBits(size: nat)
    requires size < 0x400
    ensures (0xB000 + size) % 0x400 == size
  {
  }

  /** Five bytes of identification, the associations, the checksum. */
  function PatBody(ids: seq<byte>, all: seq<(UInt16, nat)>, crc: UInt32): (s: seq<byte>)
    ensures |s| == |ids| + 4 * |all| + 4
  {
    ids + (Associations(all) + Be32(crc))
  }

  lemma PatLayout(skip: seq<byte>, ids: seq<byte>, all: seq<(UInt16, nat)>, crc: UInt32, more: seq<byte>)
    requires |skip| < 256 && |ids| == 5 && |all| <= 253
    ensures var table := PatTable(Pointed(skip, Section(0, PatBody(ids, all, crc), more)));
      U8(table) == 0 && PatPrograms(table) == Associations(all) + Be32(crc)
  {
    hide *;
    var body := PatBody(ids, all, crc);
    PointerSkipped(skip, Section(0, body, more));
    SectionCut(0, body, more);
    ProgramsIs(Section(0, body, more), ids, all, crc);
  }

  lemma ProgramsIs(table: seq<byte>, ids: seq<byte>, all: seq<(UInt16, nat)>, crc: UInt32)
    requires |ids| == 5 && Table(Drop(table, 3), U16(Drop(table, 1)) % 0x400) == PatBody(ids, all, crc)
    ensures PatPrograms(table) == Associations(all) + Be32(crc)
  {
    hide Table, U16, Associations, Be32;
    DropAppend(ids, Associations(all) + Be32(crc));
  }

  /** Any association table, of any multiplexer: every map it names is awaited, and the
      checksum tells whether it is the one known. */
  lemma AnyPatReads(d: Demux, skip: seq<byte>, ids: seq<byte>, all: seq<(UInt16, nat)>, crc: UInt32, more: seq<byte>)
    requires |skip| < 256 && |ids| == 5 && |all| <= 253 && ArePids(all)
    ensures var pmts := AddPmts(Associations(all) + Be32(crc), map[]).0;
      Maps(pmts, map[], all) && ParsePat(d, Pointed(skip, Section(0, PatBody(ids, all, crc), more))) == Associate(d, pmts, crc)
  {
    hide AddPmts, Associate, PatTable, PatPrograms, PatBody, Section, Pointed, Maps, ArePids, U32At, Be32, Associations;
    PatLayout(skip, ids, all, crc, more);
    AssociationsRead(all, Be32(crc), map[]);
    ReadBe32(crc, []);
    assert Be32(crc) + [] == Be32(crc);
  }

  // ----- a stream that has changed --------------------------------------------------------------------

  predicate Reads(programs: map<int, Program>, q: int)
  {
    q in programs && programs[q].reader != NoReader
  }

  /** Each pid with a reader once, in increasing order. */
  ghost predicate FlushesReaders(events: seq<Event>, programs: map<int, Program>, from: nat)
  {
    Flushes(events, programs, from) && Rising(events) && Covers(events, programs, from)
  }

  predicate Flushes(events: seq<Event>, programs: map<int, Program>, from: nat)
  {
    forall i :: 0 <= i < |events| ==>
      events[i].Flush? && from <= events[i].flushed < 0x2000 && Reads(programs, events[i].flushed)
  }

  predicate Rising(events: seq<Event>)
  {
    forall i, j :: 0 <= i < j < |events| && events[i].Flush? && events[j].Flush? ==> events[i].flushed < events[j].flushed
  }

  predicate Covers(events: seq<Event>, programs: map<int, Program>, from: nat)
  {
    forall q :: from <= q < 0x2000 && Reads(programs, q) ==> Flush(q) in events
  }

  lemma {:induction false} FlushesAll(programs: map<int, Program>, from: nat)
    ensures FlushesReaders(FlushFrom(programs, from), programs, from)
    decreases 0x2000 - from
  {
    hide *;
    if from < 0x2000 {
      FlushesAll(programs, from + 1);
      FlushUnfold(programs, from);
      if Reads(programs, from) {
        FlushesOne(FlushFrom(programs, from + 1), programs, from);
      } else {
        FlushesNone(FlushFrom(programs, from + 1), programs, from);
      }
    } else {
      FlushesEnd(programs, from);
    }
  }

  lemma FlushesEnd(programs: map<int, Program>, from: nat)
    requires from >= 0x2000
    ensures FlushesReaders(FlushFrom(programs, from), programs, from)
  {
  }

  lemma FlushesNone(later: seq<Event>, programs: map<int, Program>, from: nat)
    requires !Reads(programs, from) && FlushesReaders(later, programs, from + 1)
    ensures FlushesReaders(later, programs, from)
  {
    hide Reads;
  }

  lemma FlushUnfold(programs: map<int, Program>, from: nat)
    requires from < 0x2000
    ensures FlushFrom(programs, from)
      == if Reads(programs, from) then [Flush(from)] + FlushFrom(programs, from + 1) else FlushFrom(programs, from + 1)
  {
    assert [] + FlushFrom(programs, from + 1) == FlushFrom(programs, from + 1);
  }

  lemma FlushesOne(later: seq<Event>, programs: map<int, Program>, from: nat)
    requires from < 0x2000 && Reads(programs, from) && FlushesReaders(later, programs, from + 1)
    ensures FlushesReaders([Flush(from)] + later, programs, from)
  {
    hide Reads;
    var all := [Flush(from)] + later;
    assert Flushes(all, programs, from) by {
      hide Rising, Covers;
      assert all[0] == Flush(from) && forall i :: 0 < i < |all| ==> all[i] == later[i - 1];
    }
    assert Rising(all) by {
      hide Covers;
      RisingOne(later, programs, from);
    }
    assert Covers(all, programs, from) by {
      hide Flushes, Rising;
      CoversOne(later, programs, from);
    }
  }

  lemma RisingOne(later: seq<Event>, programs: map<int, Program>, from: nat)
    requires Flushes(later, programs, from + 1) && Rising(later)
    ensures Rising([Flush(from)] + later)
  {
    hide Reads;
    var all := [Flush(from)] + later;
    assert all[0] == Flush(from) && forall i :: 0 < i < |all| ==> all[i] == later[i - 1];
  }

  lemma CoversOne(later: seq<Event>, programs: map<int, Program>, from: nat)
    requires Covers(later, programs, from + 1)
    ensures Covers([Flush(from)] + later, programs, from)
  {
    hide Reads;
    forall q | from <= q < 0x2000 && Reads(programs, q) ensures Flush(q) in [Flush(from)] + later {
      FlushIn(q, from, later);
    }
  }

  lemma FlushIn(q: int, from: nat, later: seq<Event>)
    requires q == from || Flush(q) in later
    ensures Flush(q) in [Flush(from)] + later
  {
  }

  /** A table with another checksum than the one known means another stream: every reader is
      flushed, once and in order, the source is reset, and no program is left. The first table
      of all, and one already known, do nothing of it. */
  lemma StreamChanges(d: Demux, pmts: map<int, byte>, crc: UInt32)
    ensures var r := Associate(d, pmts, crc);
      if crc == d.crcPAT then r == (d, [])
      else if d.crcPAT == 0 then r == (Demux(d.programs, pmts, crc), [])
      else r.0 == Demux(map[], pmts, crc) && |r.1| > 0 && r.1[|r.1| - 1] == ResetSource
           && FlushesReaders(r.1[..|r.1| - 1], d.programs, 0)
  {
    hide FlushFrom, FlushesReaders;
    FlushesAll(d.programs, 0);
    var all := FlushFrom(d.programs, 0);
    assert (all + [ResetSource])[..|all|] == all;
  }

  // ----- program maps (section 2.4.4.8) ------------------------------------------------------------------

  /** A descriptor, or a byte that fills. */
  datatype Descriptor = Filler | Descriptor(tag: byte, data: seq<byte>)

  predicate IsDescriptor(x: Descriptor)
  {
    x.Descriptor? ==> x.tag != 0xFF && |x.data| < 256
  }

  function DescriptorBytes(x: Descriptor): seq<byte>
    requires IsDescriptor(x)
  {
    if x.Filler? then [0xFF] else [x.tag, |x.data|] + x.data
  }

  predicate AreDescriptors(xs: seq<Descriptor>)
  {
    forall i :: 0 <= i < |xs| ==> IsDescriptor(xs[i])
  }

  function AllDescriptors(xs: seq<Descriptor>): seq<byte>
    requires AreDescriptors(xs)
  {
    if xs == [] then [] else DescriptorBytes(xs[0]) + AllDescriptors(xs[1..])
  }

  lemma SkipUnfold(r: seq<byte>, available: UInt16)
    requires r != [] && r[0] != 0xFF && available >= 2
    ensures var r2 := Drop(r[1..], 1);
      var size := Min(U8(r[1..]), |r2|);
      SkipDescriptors(r, available) == SkipDescriptors(Drop(r2, size), (available - 2 - size) % 0x1_0000)
  {
    hide Drop, U8;
  }

  lemma FillerSkipped(rest: seq<byte>, available: UInt16)
    requires available > 0
    ensures SkipDescriptors([0xFF] + rest, available) == SkipDescriptors(rest, available - 1)
  {
    assert ([0xFF as byte] + rest)[1..] == rest;
  }

  lemma SkipStep(r: seq<byte>, available: UInt16, r2: seq<byte>, size: nat, rest: seq<byte>)
    requires r != [] && r[0] != 0xFF && size + 2 <= available
    requires Drop(r[1..], 1) == r2 && Min(U8(r[1..]), |r2|) == size && Drop(r2, size) == rest
    ensures SkipDescriptors(r, available) == SkipDescriptors(rest, available - 2 - size)
  {
    hide SkipDescriptors;
    SkipUnfold(r, available);
    assert (available - 2 - size) % 0x1_0000 == available - 2 - size;
  }

  lemma OneDescriptor(x: Descriptor, rest: seq<byte>, available: UInt16)
    requires IsDescriptor(x) && |DescriptorBytes(x)| <= available
    ensures SkipDescriptors(DescriptorBytes(x) + rest, available) == SkipDescriptors(rest, available - |DescriptorBytes(x)|)
  {
    hide SkipDescriptors, Drop, U8;
    if x.Filler? {
      FillerSkipped(rest, available);
    } else {
      DescriptorParts(x, rest);
      hide DescriptorBytes;
      SkipStep(DescriptorBytes(x) + rest, available, x.data + rest, |x.data|, rest);
    }
  }

  lemma DescriptorParts(x: Descriptor, rest: seq<byte>)
    requires IsDescriptor(x) && x.Descriptor?
    ensures var r := DescriptorBytes(x) + rest;
      && |DescriptorBytes(x)| == 2 + |x.data| && r != [] && r[0] == x.tag != 0xFF
      && U8(r[1..]) == Min(|x.data|, |x.data + rest|) == |x.data| && Drop(r[1..], 1) == x.data + rest
      && Drop(x.data + rest, |x.data|) == rest
  {
    var r := DescriptorBytes(x) + rest;
    assert r[1..] == [|x.data| as byte] + (x.data + rest);
    DropAppend([|x.data| as byte], x.data + rest);
    DropAppend(x.data, rest);
  }

  /** Descriptors, whatever they are, are passed over exactly. */
  lemma {:induction false} DescriptorsSkipped(xs: seq<Descriptor>, rest: seq<byte>)
    requires AreDescriptors(xs) && |AllDescriptors(xs)| < 0x1_0000
    ensures SkipDescriptors(AllDescriptors(xs) + rest, |AllDescriptors(xs)|) == rest
    decreases |xs|
  {
    hide SkipDescriptors, DescriptorBytes, IsDescriptor;
    if xs == [] {
      NothingSkipped(rest);
      assert [] + rest == rest;
    } else {
      var later := AllDescriptors(xs[1..]) + rest;
      assert AllDescriptors(xs) + rest == DescriptorBytes(xs[0]) + later;
      OneDescriptor(xs[0], later, |AllDescriptors(xs)|);
      DescriptorsSkipped(xs[1..], rest);
    }
  }

  lemma NothingSkipped(r: seq<byte>)
    ensures SkipDescriptors(r, 0) == r
  {
  }

  /** A stream of a map: its type, its pid, and what is told of it. */
  datatype Stream = Stream(kind: byte, pid: nat, info: seq<Descriptor>)

  predicate IsStream(x: Stream)
  {
    x.pid < 0x2000 && AreDescriptors(x.info) && |AllDescriptors(x.info)| < 0x1000
  }

  function StreamBytes(x: Stream): (s: seq<byte>)
    requires IsStream(x)
    ensures |s| == 5 + |AllDescriptors(x.info)|
  {
    [x.kind] + (Be16(0xE000 + x.pid) + (Be16(0xF000 + |AllDescriptors(x.info)|) + AllDescriptors(x.info)))
  }

  predicate AreStreams(xs: seq<Stream>)
  {
    forall i :: 0 <= i < |xs| ==> IsStream(xs[i])
  }

  function AllStreams(xs: seq<Stream>): (s: seq<byte>)
    requires AreStreams(xs)
  {
    if xs == [] then [] else StreamBytes(xs[0]) + AllStreams(xs[1..])
  }

  /** The reader of a stream's type (table 2-34): H.264, H.265, AAC in ADTS, and audio of
      MPEG-1 or MPEG-2. */
  function KindReader(kind: byte): Reader
  {
    match kind
    case 27 => H264Reader
    case 36 => HevcReader
    case 15 => AdtsReader
    case 3 => Mp3Reader
    case 4 => Mp3Reader
    case _ => NoReader
  }

  /** Every stream of the map gets the reader of its type and is else as it was, or new: it
      then waits for a header and has no counter. */
  function Assign(programs: map<int, Program>, xs: seq<Stream>): map<int, Program>
    decreases |xs|
  {
    if xs == [] then programs
    else
      var before := if xs[0].pid in programs then programs[xs[0].pid] else Program(NoReader, true, 0xFF);
      Assign(programs[xs[0].pid := before.(reader := KindReader(xs[0].kind))], xs[1..])
  }

  /** The readers replaced by another or by none. */
  function Replaced(programs: map<int, Program>, xs: seq<Stream>): seq<Event>
    decreases |xs|
  {
    if xs == [] then []
    else
      (if Reads(programs, xs[0].pid) && programs[xs[0].pid].reader != KindReader(xs[0].kind) then [Flush(xs[0].pid)] else [])
      + Replaced(Assign(programs, [xs[0]]), xs[1..])
  }

  lemma TopBits(pid: nat, size: nat)
    requires pid < 0x2000 && size < 0x1000
    ensures (0xE000 + pid) % 0x2000 == pid && (0xF000 + size) % 0x1000 == size
  {
    assert 0xE000 == 7 * 0x2000 && 0xF000 == 15 * 0x1000;
  }

  lemma OneStream(x: Stream, rest: seq<byte>)
    requires IsStream(x)
    ensures var r := StreamBytes(x) + rest;
      U8(r) == x.kind && StreamPid(r) == x.pid && AfterStream(r) == rest
  {
    hide U16, Be16, SkipDescriptors, AllDescriptors, AreDescriptors;
    var info := AllDescriptors(x.info);
    var r3 := Be16(0xF000 + |info|) + (info + rest);
    var r1 := Be16(0xE000 + x.pid) + r3;
    var r := [x.kind] + r1;
    assert StreamBytes(x) + rest == r;
    TopBits(x.pid, |info|);
    DropAppend([x.kind], r1);
    ReadBe16(0xE000 + x.pid, r3);
    ReadBe16(0xF000 + |info|, info + rest);
    DropDrop(r, 1, 2);
    DropDrop(r, 3, 2);
    DropAppend(info, rest);
    DescriptorsSkipped(x.info, rest);
  }

  /** All streams of a map, described in any way, and four bytes behind them. */
  lemma {:induction false} StreamsRead(d: Demux, xs: seq<Stream>, crc: seq<byte>)
    requires AreStreams(xs) && |crc| == 4
    ensures SetPrograms(d, AllStreams(xs) + crc) == (d.(programs := Assign(d.programs, xs)), Replaced(d.programs, xs))
    decreases |xs|
  {
    hide StreamBytes, StreamPid, AfterStream, IsStream, ReaderOf, KindReader;
    if xs == [] {
      assert [] + crc == crc;
    } else {
      var later := AllStreams(xs[1..]) + crc;
      assert AllStreams(xs) + crc == StreamBytes(xs[0]) + later;
      OneStream(xs[0], later);
      SameReader(xs[0].kind);
      AssignOne(d, xs[0]);
      StreamsRead(d.(programs := Assign(d.programs, [xs[0]])), xs[1..], crc);
      AssignMore(d.programs, xs);
    }
  }

  lemma AssignOne(d: Demux, x: Stream)
    ensures SetProgram(d, x.pid, KindReader(x.kind)).0 == d.(programs := Assign(d.programs, [x]))
  {
    hide KindReader;
    assert [x][1..] == [];
  }

  lemma AssignMore(programs: map<int, Program>, xs: seq<Stream>)
    requires xs != []
    ensures Assign(programs, xs) == Assign(Assign(programs, [xs[0]]), xs[1..])
  {
    hide KindReader;
    assert [xs[0]][1..] == [];
  }

  lemma SameReader(kind: byte)
    ensures ReaderOf(kind) == KindReader(kind)
  {
  }

  /** The body of a map: its program's number, a version, two bytes of section numbers, the
      clock's pid, what is told of the program, the streams and the checksum. */
  function PmtBody(ids: seq<byte>, version: nat, current: bool, clock: seq<byte>, info: seq<byte>, xs: seq<Stream>, crc: seq<byte>)
    : seq<byte>
    requires version < 32 && AreStreams(xs) && |ids| == 4 && |info| < 0x1000
  {
    var streams := Be16(0xF000 + |info|) + (info + (AllStreams(xs) + crc));
    ids[..2] + ([0xC0 + version * 2 + Bit(current, 1)] + (ids[2..] + (clock + streams)))
  }

  lemma PmtLayout(ids: seq<byte>, version: nat, current: bool, clock: seq<byte>, info: seq<byte>, xs: seq<Stream>, crc: seq<byte>)
    requires version < 32 && AreStreams(xs) && |ids| == 4 && |clock| == 2 && |info| < 0x1000
    ensures var table := PmtBody(ids, version, current, clock, info, xs, crc);
      |table| >= 9 && MapVersion(table) == version && MapStreams(table) == AllStreams(xs) + crc
  {
    hide Be16, AllStreams, U16;
    var streams := AllStreams(xs) + crc;
    var length := Be16(0xF000 + |info|);
    var front := ids[..2] + [0xC0 + version * 2 + Bit(current, 1)] + ids[2..] + clock;
    var table := PmtBody(ids, version, current, clock, info, xs, crc);
    assert table == front + (length + (info + streams));
    assert Drop(table, 2)[0] == front[2] && Drop(table, 7) == length + (info + streams);
    VersionBits(version, current);
    ReadBe16(0xF000 + |info|, info + streams);
    TopBits(0, |info|);
    DropDrop(table, 7, 2);
    DropAppend(info, streams);
  }

  lemma VersionBits(version: nat, current: bool)
    requires version < 32
    ensures (0xC0 + version * 2 + Bit(current, 1)) / 2 % 0x20 == version
  {
    assert (0xC0 + version * 2 + Bit(current, 1)) / 2 == 3 * 0x20 + version;
  }

  lemma MapFound(d: Demux, pid: int, skip: seq<byte>, body: seq<byte>, more: seq<byte>)
    requires pid in d.pmts && |skip| < 256 && |body| < 0x400
    ensures ParsePsi(d, pid, Pointed(skip, Section(2, body, more)))
      == ParsePmt(d, pid, Be16(0xB000 + |body|) + (body + more))
  {
    hide ParsePmt, Be16;
    var r := Section(2, body, more);
    var data := Pointed(skip, r);
    assert data[1..] == skip + r && (skip + r)[|skip|] == r[0];
    assert (skip + r)[|skip| + 1..] == r[1..] == Be16(0xB000 + |body|) + (body + more);
  }

  lemma TableFound(body: seq<byte>, more: seq<byte>)
    requires |body| < 0x400
    ensures var data := Be16(0xB000 + |body|) + (body + more);
      Table(Drop(data, 2), U16(data) % 0x400) == body
  {
    hide U16, Be16;
    ReadBe16(0xB000 + |body|, body + more);
    SizeBits(|body|);
    assert (body + more)[..|body|] == body;
  }

  /** Any program map, of any multiplexer, at its pid: nothing if its version is the one known,
      and else that version and its streams. */
  lemma AnyPmtReads(d: Demux, pid: int, skip: seq<byte>, ids: seq<byte>, version: nat, current: bool, clock: seq<byte>,
                    info: seq<byte>, xs: seq<Stream>, crc: seq<byte>, more: seq<byte>)
    requires pid in d.pmts && |skip| < 256 && version < 32 && AreStreams(xs)
    requires |ids| == 4 && |clock| == 2 && |info| < 0x1000 && |crc| == 4
    requires |PmtBody(ids, version, current, clock, info, xs, crc)| < 0x400
    ensures ParsePsi(d, pid, Pointed(skip, Section(2, PmtBody(ids, version, current, clock, info, xs, crc), more)))
      == if version == d.pmts[pid] then (d, [])
         else (d.(pmts := d.pmts[pid := version], programs := Assign(d.programs, xs)), Replaced(d.programs, xs))
  {
    hide PmtBody, Pointed, Section, ParsePsi, AllStreams, SetPrograms, MapVersion, MapStreams, Table, U16, Be16,
      AreStreams, Assign, Replaced;
    var body := PmtBody(ids, version, current, clock, info, xs, crc);
    MapFound(d, pid, skip, body, more);
    TableFound(body, more);
    PmtLayout(ids, version, current, clock, info, xs, crc);
    StreamsRead(d.(pmts := d.pmts[pid := version]), xs, crc);
  }

  // ----- PES headers (section 2.4.3.7) --------------------------------------------------------------------

  /** A header is found by the last byte of its prefix and a stream id of audio, video or
      above; the two bytes in front are not looked at. */
  lemma HeaderFoundExactly(r: seq<byte>)
    requires |r| >= 4
    ensures ReadPesHeader(r).found <==> r[2] == 1 && r[3] >= 0xC0
    ensures !ReadPesHeader(r).found ==> ReadPesHeader(r).rest == r[4..] && ReadPesHeader(r).stamps.None?
  {
    hide ReadStamps;
    var v := U32At(r);
    assert v % 0x1_0000 == r[2] as int * 0x100 + r[3] as int;
    FoundAlways(U8(Drop(r, 7)) / 0x40, U8(Drop(r, 8)), Drop(r, 9));
  }

  lemma FoundAlways(flags: byte, length: byte, r: seq<byte>)
    ensures ReadStamps(flags, length, r).found
  {
    hide ReadStamp;
  }

  /** What the two flags make of the bytes behind them. */
  function Needed(flags: nat): byte
  {
    if flags == 3 then 10 else if flags == 2 then 5 else 0
  }

  /** With room for the stamps that its flags announce, the header is as long as it says,
      whatever else it holds, and the payload begins behind it. A shorter one is taken for
      longer by 256. */
  lemma HeaderEndsExactly(prefix: seq<byte>, id: byte, size: seq<byte>, first: byte, flags: nat, low: nat, length: byte,
                          fields: seq<byte>, payload: seq<byte>)
    requires |prefix| == 2 && id >= 0xC0 && |size| == 2 && flags < 4 && low < 0x40 && |fields| == length && |payload| >= 256
    ensures var header := ReadPesHeader(prefix + [1, id] + size + [first, flags * 0x40 + low, length] + (fields + payload));
      && header.found && (header.stamps.Some? <==> flags >= 2)
      && (header.rest == payload <==> length >= Needed(flags))
  {
    var head := prefix + [1, id] + size + [first, flags * 0x40 + low, length];
    assert |head| == 9 && head[2] == 1 && head[3] == id && head[7] == flags * 0x40 + low && head[8] == length;
    hide ReadStamps, Drop, U8, U32At;
    PartsOfHeader(head, fields + payload);
    StampsEnd(flags, length, fields, payload);
    FoundAlways(flags, length, fields + payload);
    assert (flags * 0x40 + low) / 0x40 == flags;
    assert (0x100 + id) / 0x40 == 7;
  }

  lemma PartsOfHeader(head: seq<byte>, later: seq<byte>)
    requires |head| == 9
    ensures var r := head + later;
      && U32At(r) % 0x1_0000 == head[2] as int * 0x100 + head[3] as int && Drop(r, 9) == later
      && U8(Drop(r, 7)) == head[7] && U8(Drop(r, 8)) == head[8]
  {
    var r := head + later;
    assert U32At(r) == (head[0] as int * 0x100 + head[1] as int) * 0x1_0000 + (head[2] as int * 0x100 + head[3] as int);
  }

  lemma StampsEnd(flags: byte, length: byte, fields: seq<byte>, payload: seq<byte>)
    requires flags < 4 && |fields| == length && |payload| >= 256
    ensures ReadStamps(flags, length, fields + payload).rest == payload <==> length >= Needed(flags)
    ensures ReadStamps(flags, length, fields + payload).stamps.Some? <==> flags >= 2
  {
    hide ReadStamp;
    var r, n := fields + payload, Needed(flags);
    DropAppend(fields, payload);
    if length >= n {
      assert (length - n) % 256 == length - n;
      DropDrop(r, n, length - n);
    } else {
      assert (length - n) % 256 == length - n + 256;
      DropDrop(r, n, length - n + 256);
      DropDrop(r, length, 256);
    }
  }
}
