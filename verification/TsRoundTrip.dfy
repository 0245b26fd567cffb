/** What TSReader makes of TSWriter's packets: every stream whole, every stamp
    exact, no loss reported. */
module TsRoundTrip {
  import opened Bytes
  import opened Options
  import opened TsWriter
  import opened TsPackets
  import opened TsReading
  import TsReader
  import Crc32

  // ----- the association table has a checksum the reader can tell from "none" --------

  lemma RunPrefix(data: seq<bv8>, k: nat)
    requires k < |data|
    ensures Crc32.Run(0xFFFFFFFF, data[..k + 1], false) == Crc32.Update(Crc32.Run(0xFFFFFFFF, data[..k], false), data[k])
  {
    hide Crc32.Update;
    assert data[..k + 1][..k] == data[..k];
  }

  lemma SmallBytes()
    ensures (0x00 as byte) as bv8 == 0x00
    ensures (0x01 as byte) as bv8 == 0x01
    ensures (0x0D as byte) as bv8 == 0x0D
    ensures (0x20 as byte) as bv8 == 0x20
    ensures (0xB0 as byte) as bv8 == 0xB0
    ensures (0xC1 as byte) as bv8 == 0xC1
    ensures (0xE0 as byte) as bv8 == 0xE0
  {
  }

  lemma PatBits()
    ensures var p := ToBits(PAT_SECTION);
      |p| == 12 && p[0] == 0x00 && p[1] == 0xB0 && p[2] == 0x0D && p[3] == 0x00 && p[4] == 0x01 && p[5] == 0xC1
      && p[6] == 0x00 && p[7] == 0x00 && p[8] == 0x00 && p[9] == 0x01 && p[10] == 0xE0 && p[11] == 0x20
  {
    SmallBytes();
  }

  lemma PatStep1()
    ensures Crc32.Update(0xFFFFFFFF, 0x00) == 0x4E08BFB4
  {
  }

  lemma PatStep2()
    ensures Crc32.Update(0x4E08BFB4, 0xB0) == 0xBD89E903
  {
  }

  lemma PatStep3()
    ensures Crc32.Update(0xBD89E903, 0x0D) == 0x34D78E7E
  {
  }

  lemma PatStep4()
    ensures Crc32.Update(0x34D78E7E, 0x00) == 0x10B8654C
  {
  }

  lemma PatStep5()
    ensures Crc32.Update(0x10B8654C, 0x01) == 0xF0B58AC7
  {
  }

  lemma PatStep6()
    ensures Crc32.Update(0xF0B58AC7, 0xC1) == 0x6579B727
  {
  }

  lemma PatStep7()
    ensures Crc32.Update(0x6579B727, 0x00) == 0xC2D78AFC
  {
  }

  lemma PatStep8()
    ensures Crc32.Update(0xC2D78AFC, 0x00) == 0x838257F7
  {
  }

  lemma PatStep9()
    ensures Crc32.Update(0x838257F7, 0x00) == 0xE6183137
  {
  }

  lemma PatStep10()
    ensures Crc32.Update(0xE6183137, 0x01) == 0xC3DF417C
  {
  }

  lemma PatStep11()
    ensures Crc32.Update(0xC3DF417C, 0xE0) == 0x4A21EC39
  {
  }

  lemma PatStep12()
    ensures Crc32.Update(0x4A21EC39, 0x20) == 0xA2C32941
  {
  }

  lemma PatChecksum()
    ensures Crc(PAT_SECTION) == 0xA2C32941
  {
    hide Crc32.Update, Crc32.Run, ToBits;
    PatBits();
    var p := ToBits(PAT_SECTION);
    RunNothing();
    assert p[..0] == [] && p[..12] == p;
    RunPrefix(p, 0); PatStep1();
    RunPrefix(p, 1); PatStep2();
    RunPrefix(p, 2); PatStep3();
    RunPrefix(p, 3); PatStep4();
    RunPrefix(p, 4); PatStep5();
    RunPrefix(p, 5); PatStep6();
    RunPrefix(p, 6); PatStep7();
    RunPrefix(p, 7); PatStep8();
    RunPrefix(p, 8); PatStep9();
    RunPrefix(p, 9); PatStep10();
    RunPrefix(p, 10); PatStep11();
    RunPrefix(p, 11); PatStep12();
  }

  lemma RunNothing()
    ensures Crc32.Run(0xFFFFFFFF, [], false) == 0xFFFFFFFF
  {
  }

  // ----- what the events amount to -------------------------------------------------------

  type Event = TsReader.Event
  type Demux = TsReader.Demux

  /** The bytes handed to the track reader of `pid`. */
  function Reads(events: seq<Event>, pid: int): seq<byte>
  {
    if events == [] then []
    else (if events[0].Read? && events[0].pid == pid then events[0].data else []) + Reads(events[1..], pid)
  }

  /** The stamps announced, in order, with their pid. */
  function Stamps(events: seq<Event>): seq<(int, nat, nat)>
  {
    if events == [] then []
    else
      (if events[0].Times? then [(events[0].timed, events[0].pts, events[0].dts)] else []) + Stamps(events[1..])
  }

  /** No packet was found missing, and the stream was never taken for a new one. */
  predicate Lossless(events: seq<Event>)
  {
    forall i :: 0 <= i < |events| ==> !events[i].Lost? && !events[i].ResetSource?
  }

  lemma {:induction false} ReadsAppend(a: seq<Event>, b: seq<Event>, pid: int)
    ensures Reads(a + b, pid) == Reads(a, pid) + Reads(b, pid)
  {
    if a == [] {
      assert a + b == b;
    } else {
      assert (a + b)[0] == a[0] && (a + b)[1..] == a[1..] + b;
      var first := if a[0].Read? && a[0].pid == pid then a[0].data else [];
      assert Reads(a, pid) == first + Reads(a[1..], pid);
      assert Reads(a + b, pid) == first + Reads(a[1..] + b, pid);
      hide Reads;
      ReadsAppend(a[1..], b, pid);
      Associative(first, Reads(a[1..], pid), Reads(b, pid));
    }
  }

  lemma {:induction false} StampsAppend(a: seq<Event>, b: seq<Event>)
    ensures Stamps(a + b) == Stamps(a) + Stamps(b)
  {
    if a == [] {
      assert a + b == b;
    } else {
      assert (a + b)[0] == a[0] && (a + b)[1..] == a[1..] + b;
      var first := if a[0].Times? then [(a[0].timed, a[0].pts, a[0].dts)] else [];
      assert Stamps(a) == first + Stamps(a[1..]);
      assert Stamps(a + b) == first + Stamps(a[1..] + b);
      hide Stamps;
      StampsAppend(a[1..], b);
      Associative(first, Stamps(a[1..]), Stamps(b));
    }
  }

  /** A step that reads `data` for `pid`, announces `stamps`, and loses nothing. */
  ghost predicate Delivers(events: seq<Event>, pid: int, data: seq<byte>, stamps: seq<(int, nat, nat)>)
  {
    && Lossless(events)
    && Stamps(events) == stamps
    && forall q :: Reads(events, q) == if q == pid then data else []
  }

  lemma DeliversBoth(a: seq<Event>, b: seq<Event>, pid: int, data: seq<byte>, data': seq<byte>,
                     stamps: seq<(int, nat, nat)>, stamps': seq<(int, nat, nat)>)
    requires Delivers(a, pid, data, stamps) && Delivers(b, pid, data', stamps')
    ensures Delivers(a + b, pid, data + data', stamps + stamps')
  {
    StampsAppend(a, b);
    forall q ensures Reads(a + b, q) == if q == pid then data + data' else [] {
      ReadsAppend(a, b, q);
    }
  }

  lemma {:induction false} QuietDelivers(events: seq<Event>, pid: int)
    requires Quiet(events)
    ensures Delivers(events, pid, [], [])
  {
    if events != [] {
      QuietDelivers(events[1..], pid);
      forall q ensures Reads(events, q) == [] {
        assert Reads(events[1..], q) == [];
      }
    }
  }

  lemma ReadDelivers(pid: int, data: seq<byte>)
    ensures Delivers([TsReader.Read(pid, data)], pid, data, [])
  {
    forall q ensures Reads([TsReader.Read(pid, data)], q) == if q == pid then data else [] {
      assert Reads([], q) == [];
    }
  }

  lemma TimesDelivers(pid: int, pts: nat, dts: nat)
    ensures Delivers([TsReader.Times(pid, pts, dts)], pid, [], [(pid, pts, dts)])
  {
  }

  // ----- writer and reader in step ------------------------------------------------------------

  /** Each program's last counter is the one before the writer's next, or it has
      not been seen yet. */
  ghost predicate Linked(m: Mux, d: Demux)
  {
    forall q :: q in d.programs ==>
      && 33 <= q < 512
      && (if d.programs[q].sequence == 0xFF then d.programs[q].waitHeader
          else d.programs[q].sequence == (Counter(m, q) + 15) % 16)
  }

  /** The reader has every track's reader. */
  predicate Known(s: seq<(int, byte)>, d: Demux)
  {
    forall i :: 0 <= i < |s| ==>
      s[i].0 in d.programs && d.programs[s[i].0].reader == TsReader.ReaderOf(s[i].1)
  }

  function TrackStreams(m: Mux): seq<(int, byte)>
  {
    Streams(m.videos, m.audios)
  }

  /** The program tables the reader has are the writer's, but for a change it has
      yet to announce. */
  ghost predicate Synced(m: Mux, d: Demux)
  {
    && Valid(m) && Linked(m, d)
    && (if d.pmts == map[] then d.crcPAT == 0 && m.changed
        else d.pmts == map[PMT_PID := m.version % 32] && d.crcPAT == Crc(PAT_SECTION))
    && (!m.changed ==> Current(m, d))
  }

  ghost predicate Current(m: Mux, d: Demux)
  {
    TrackStreams(m) != [] && Known(TrackStreams(m), d) && m.pidPCR == TrackStreams(m)[0].0
  }

  lemma SyncedParts(m: Mux, d: Demux)
    requires Synced(m, d)
    ensures Valid(m) && Linked(m, d)
    ensures !m.changed ==> Current(m, d)
  {
  }

  /** From a fresh reader, whatever the writer's counters and version left over. */
  lemma SyncedFirst(m: Mux)
    requires Valid(m) && m.changed
    ensures Synced(m, TsReader.EMPTY)
  {
  }

  lemma VideoAt(m: Mux, i: nat)
    requires Valid(m) && i < |m.videos|
    ensures TrackStreams(m)[i] == (FIRST_VIDEO_PID + m.videos[i].id, m.videos[i].kind)
    ensures 33 <= TrackStreams(m)[i].0 < 256
    ensures TsReader.ReaderOf(TrackStreams(m)[i].1) != TsReader.NoReader
  {
    hide Increasing;
    assert m.videos[i] in m.videos;
  }

  lemma AudioAt(m: Mux, i: nat)
    requires Valid(m) && i < |m.audios|
    ensures TrackStreams(m)[|m.videos| + i] == (FIRST_AUDIO_PID + m.audios[i].id, m.audios[i].kind)
    ensures 256 <= TrackStreams(m)[|m.videos| + i].0 < 512
    ensures TsReader.ReaderOf(TrackStreams(m)[|m.videos| + i].1) != TsReader.NoReader
  {
    hide Increasing;
    assert m.audios[i] in m.audios;
  }

  lemma StreamCount(m: Mux)
    ensures |TrackStreams(m)| == |m.videos| + |m.audios|
  {
  }

  lemma StreamRange(m: Mux, i: nat)
    requires Valid(m) && i < |TrackStreams(m)|
    ensures 33 <= TrackStreams(m)[i].0 < 512
    ensures TsReader.ReaderOf(TrackStreams(m)[i].1) != TsReader.NoReader
  {
    hide Valid, TsReader.ReaderOf, TrackStreams;
    StreamCount(m);
    if i < |m.videos| {
      VideoAt(m, i);
    } else {
      AudioAt(m, i - |m.videos|);
    }
  }

  lemma StreamsDiffer(m: Mux, i: nat, j: nat)
    requires Valid(m) && i < j < |TrackStreams(m)|
    ensures TrackStreams(m)[i].0 != TrackStreams(m)[j].0
  {
    hide Streams, TsReader.ReaderOf;
    var n := |m.videos|;
    if j < n {
      VideoAt(m, i);
      VideoAt(m, j);
    } else if i >= n {
      AudioAt(m, i - n);
      AudioAt(m, j - n);
      assert m.audios[i - n].id < m.audios[j - n].id;
    } else {
      VideoAt(m, i);
      AudioAt(m, j - n);
    }
  }

  lemma StreamsDistinct(m: Mux)
    requires Valid(m)
    ensures Distinct(TrackStreams(m)) && Supported(TrackStreams(m))
    ensures forall i :: 0 <= i < |TrackStreams(m)| ==> 33 <= TrackStreams(m)[i].0
  {
    hide Streams, TsReader.ReaderOf, Valid;
    forall i | 0 <= i < |TrackStreams(m)|
      ensures 33 <= TrackStreams(m)[i].0 < 512 && TsReader.ReaderOf(TrackStreams(m)[i].1) != TsReader.NoReader
    {
      StreamRange(m, i);
    }
    forall i, j | 0 <= i < j < |TrackStreams(m)| ensures TrackStreams(m)[i].0 != TrackStreams(m)[j].0 {
      StreamsDiffer(m, i, j);
    }
  }

  // ----- packets in sequence ----------------------------------------------------------------------

  function Tails(ps: seq<Packet188>): (r: seq<seq<byte>>)
    ensures |r| == |ps|
    ensures forall i :: 0 <= i < |ps| ==> r[i] == ps[i][1..]
  {
    seq(|ps|, i requires 0 <= i < |ps| => ps[i][1..])
  }

  lemma {:induction false} PacketsAppend(d: Demux, a: seq<seq<byte>>, b: seq<seq<byte>>)
    ensures TsReader.Packets(d, a + b).0 == TsReader.Packets(TsReader.Packets(d, a).0, b).0
    ensures TsReader.Packets(d, a + b).1 == TsReader.Packets(d, a).1 + TsReader.Packets(TsReader.Packets(d, a).0, b).1
    decreases |b|
  {
    hide TsReader.Packet;
    if b == [] {
      assert a + b == a;
    } else {
      var init, last := b[..|b| - 1], b[|b| - 1];
      assert b == init + [last];
      PacketsAppend(d, a, init);
      assert a + b == (a + init) + [last];
      TsReader.PacketsSnoc(d, a + init, last);
      TsReader.PacketsSnoc(TsReader.Packets(d, a).0, init, last);
    }
  }

  lemma PacketsOne(d: Demux, p: seq<byte>)
    ensures TsReader.Packets(d, [p]).0 == TsReader.Packet(d, p).0
    ensures TsReader.Packets(d, [p]).1 == TsReader.Packet(d, p).1
  {
    hide TsReader.Packet;
    assert [] + [p] == [p];
    TsReader.PacketsSnoc(d, [], p);
    TsReader.PacketsNone(d);
  }

  // ----- one packet of a known program --------------------------------------------------------------

  ghost predicate HasReader(d: Demux, pid: int)
  {
    pid in d.programs && d.programs[pid].reader != TsReader.NoReader
  }

  /** The program's state once it has read the packet counted `counter`. */
  function Seen(d: Demux, pid: int, counter: byte): Demux
    requires pid in d.programs
  {
    d.(programs := d.programs[pid := TsReader.Program(d.programs[pid].reader, false, counter % 16)])
  }

  lemma CounterFollows(counter: byte, previous: byte)
    requires previous == (counter + 15) % 16
    ensures TsReader.Missing(counter % 16, previous, true) == 0
  {
    assert (counter % 16 - previous - 1) % 16 == 0;
  }

  lemma CounterNext(counter: byte)
    ensures counter % 16 == ((counter + 1) % 256 + 15) % 16
  {
  }

  /** The writer's next packet on `pid`, when it carries a PES header, is never
      taken for a loss. */
  lemma HeaderPacket(m: Mux, d: Demux, pid: int, header: TsReader.PesHeader, r: seq<byte>)
    requires Linked(m, d) && HasReader(d, pid)
    requires header == TsReader.ReadPesHeader(r) && header.found
    ensures TsReader.Payload(d, pid, Counter(m, pid) % 16, true, true, r).0 == Seen(d, pid, Counter(m, pid))
    ensures TsReader.Payload(d, pid, Counter(m, pid) % 16, true, true, r).1
      == (if header.stamps.Some? then [TsReader.Times(pid, header.stamps.value.0, header.stamps.value.1)] else [])
         + [TsReader.Read(pid, header.rest)]
  {
    hide TsReader.ReadPesHeader, TsReader.Missing, Counter;
    var program := d.programs[pid];
    if program.sequence != 0xFF {
      CounterFollows(Counter(m, pid), program.sequence);
    }
    var lost := TsReader.Missing(Counter(m, pid) % 16, program.sequence, true);
    assert TsReader.LossEvents(pid, program, lost) == [];
    hide TsReader.LossEvents;
    var times := if header.stamps.Some? then [TsReader.Times(pid, header.stamps.value.0, header.stamps.value.1)] else [];
    assert [] + times + [TsReader.Read(pid, header.rest)] == times + [TsReader.Read(pid, header.rest)];
  }

  /** The same for a packet in the middle of a PES packet. */
  lemma MiddlePacket(m: Mux, d: Demux, pid: int, r: seq<byte>)
    requires Linked(m, d) && HasReader(d, pid) && !d.programs[pid].waitHeader
    ensures TsReader.Payload(d, pid, Counter(m, pid) % 16, false, true, r).0 == Seen(d, pid, Counter(m, pid))
    ensures TsReader.Payload(d, pid, Counter(m, pid) % 16, false, true, r).1 == [TsReader.Read(pid, r)]
  {
    hide TsReader.ReadPesHeader, TsReader.Missing, Counter;
    CounterFollows(Counter(m, pid), d.programs[pid].sequence);
  }

  lemma SeenLinked(m: Mux, m': Mux, d: Demux, pid: int)
    requires Linked(m, d) && pid in d.programs && m'.pids == Count(m, pid).pids
    ensures Linked(m', Seen(d, pid, Counter(m, pid)))
  {
    CounterNext(Counter(m, pid));
    assert Counter(m', pid) == (Counter(m, pid) + 1) % 256;
    assert forall q :: q != pid ==> Counter(m', q) == Counter(m, q);
  }

  lemma SeenKnown(s: seq<(int, byte)>, d: Demux, pid: int, counter: byte)
    requires Known(s, d) && pid in d.programs
    ensures Known(s, Seen(d, pid, counter))
  {
    hide TsReader.ReaderOf;
  }

  /** Fields a packet header may change, and nothing else. */
  predicate SameProgram(m: Mux, m': Mux)
  {
    m' == m.(pids := m'.pids, firstPCR := m'.firstPCR, timePCR := m'.timePCR)
  }

  lemma SeenSynced(m: Mux, m': Mux, d: Demux, pid: int)
    requires Synced(m, d) && !m.changed && pid in d.programs
    requires m'.pids == Count(m, pid).pids && SameProgram(m, m')
    ensures Synced(m', Seen(d, pid, Counter(m, pid)))
  {
    hide Streams, TsReader.ReaderOf, Linked, Known, Increasing;
    SeenLinked(m, m', d, pid);
    SeenKnown(TrackStreams(m), d, pid, Counter(m, pid));
  }

  // ----- continuation packets ---------------------------------------------------------------------

  /** A known program's packet is dispatched to it. */
  lemma ProgramPacket(d: Demux, start: bool, pid: int, adapted: bool, counter: byte, content: seq<byte>)
    requires HasReader(d, pid) && 33 <= pid < 512
    ensures TsReader.Packet(d, (Head(start, pid, adapted, counter) + content)[1..])
      == TsReader.Payload(d, pid, counter % 16, start, true, if adapted then TsReader.SkipAdaptation(content) else content)
  {
    hide TsReader.Payload, TsReader.Packet, TsReader.SkipAdaptation, Head;
    HeadReads(d, start, pid, adapted, counter, content);
  }

  /** A packet behind the first, as it is dispatched. */
  lemma ContinuePacket(m: Mux, d: Demux, e: EsInfo, p: seq<byte>)
    requires HasReader(d, e.pid) && 33 <= e.pid < 512 && ValidInfo(e) && 0 < |p| < U32
    ensures var next := Continue(m, e.pid, e.time, e.randomAccess, |p|);
      TsReader.Packet(d, (next.1 + p[..next.2])[1..])
      == TsReader.Payload(d, e.pid, Counter(m, e.pid) % 16, false, true, p[..next.2])
  {
    hide TsReader.Payload, TsReader.Packet, TsReader.SkipAdaptation, Head, Adaptation, Counter, Count, AfterAdaptation;
    var counter := Counter(m, e.pid);
    if |p| >= 184 {
      ProgramPacket(d, false, e.pid, false, counter, p[..184]);
    } else {
      assert p[..|p|] == p;
      var field := Adaptation(Count(m, e.pid), e.pid, e.time, e.randomAccess, 184 - |p|);
      Associative(Head(false, e.pid, true, counter), field, p);
      ProgramPacket(d, false, e.pid, true, counter, field + p);
      FieldSkipped(Count(m, e.pid), e.pid, e.time, e.randomAccess, 184 - |p|, p);
    }
  }

  lemma ContinueRead(m: Mux, d: Demux, e: EsInfo, p: seq<byte>)
    requires Linked(m, d) && HasReader(d, e.pid) && !d.programs[e.pid].waitHeader && ValidInfo(e) && 0 < |p| < U32
    ensures var next := Continue(m, e.pid, e.time, e.randomAccess, |p|);
      var packet := TsReader.Packet(d, (next.1 + p[..next.2])[1..]);
      packet.0 == Seen(d, e.pid, Counter(m, e.pid)) && packet.1 == [TsReader.Read(e.pid, p[..next.2])]
  {
    hide TsReader.Payload, TsReader.Packet, Continue, Counter, Seen;
    ContinuePacket(m, d, e, p);
    MiddlePacket(m, d, e.pid, p[..Continue(m, e.pid, e.time, e.randomAccess, |p|).2]);
  }

  lemma ContinueKeeps(m: Mux, e: EsInfo, size: UInt32)
    requires ValidInfo(e) && size > 0
    ensures SameProgram(m, Continue(m, e.pid, e.time, e.randomAccess, size).0)
    ensures Continue(m, e.pid, e.time, e.randomAccess, size).0.pids == Count(m, e.pid).pids
  {
    hide Adaptation, Head, ClockGoes;
  }

  lemma TailsCons(p: Packet188, ps: seq<Packet188>)
    ensures Tails([p] + ps) == [p[1..]] + Tails(ps)
  {
  }

  /** The packets behind the first deliver the rest of the stream. */
  lemma {:induction false} TailRead(m: Mux, d: Demux, e: EsInfo, p: seq<byte>)
    requires Synced(m, d) && !m.changed && ValidInfo(e) && |p| < U32
    requires HasReader(d, e.pid) && !d.programs[e.pid].waitHeader
    ensures Synced(TailPackets(m, e, p).0, TsReader.Packets(d, Tails(TailPackets(m, e, p).1)).0)
    ensures SameProgram(m, TailPackets(m, e, p).0)
    ensures Delivers(TsReader.Packets(d, Tails(TailPackets(m, e, p).1)).1, e.pid, p, [])
    decreases |p|
  {
    hide TsReader.Packet, Synced, Linked, Continue, Delivers, Counter, TsReader.Packets;
    TsReader.PacketsNone(d);
    if p == [] {
      NothingDelivered(e.pid);
    } else {
      TailReadStep(m, d, e, p);
    }
  }

  lemma NothingDelivered(pid: int)
    ensures Delivers([], pid, [], [])
  {
  }

  lemma TailUnfold(m: Mux, e: EsInfo, p: seq<byte>)
    requires Valid(m) && ValidInfo(e) && 0 < |p| < U32
    ensures var next := Continue(m, e.pid, e.time, e.randomAccess, |p|);
      var rest := TailPackets(next.0, e, p[next.2..]);
      TailPackets(m, e, p) == (rest.0, [next.1 + p[..next.2]] + rest.1)
  {
    hide Continue, Valid;
  }

  lemma {:induction false} TailReadStep(m: Mux, d: Demux, e: EsInfo, p: seq<byte>)
    requires Synced(m, d) && !m.changed && ValidInfo(e) && 0 < |p| < U32
    requires HasReader(d, e.pid) && !d.programs[e.pid].waitHeader
    ensures Synced(TailPackets(m, e, p).0, TsReader.Packets(d, Tails(TailPackets(m, e, p).1)).0)
    ensures SameProgram(m, TailPackets(m, e, p).0)
    ensures Delivers(TsReader.Packets(d, Tails(TailPackets(m, e, p).1)).1, e.pid, p, [])
    decreases |p|, 0
  {
    hide TailPackets, Continue, TsReader.Packet, Counter, Count, TsReader.Packets, Synced, Linked, Known, Current, Valid, Delivers;
    SyncedParts(m, d);
    TailUnfold(m, e, p);
    ContinueKeeps(m, e, |p|);
    ContinueRead(m, d, e, p);
    var next := Continue(m, e.pid, e.time, e.randomAccess, |p|);
    var d1 := Seen(d, e.pid, Counter(m, e.pid));
    SeenSynced(m, next.0, d, e.pid);
    SyncedParts(next.0, d1);
    TailRead(next.0, d1, e, p[next.2..]);
    var rest := TailPackets(next.0, e, p[next.2..]);
    TailJoin(d, d1, next.1 + p[..next.2], rest.1, e.pid, p[..next.2], p[next.2..]);
    assert p[..next.2] + p[next.2..] == p;
  }

  lemma TailJoin(d: Demux, d1: Demux, packet: Packet188, rest: seq<Packet188>, pid: int, data: seq<byte>, data': seq<byte>)
    requires TsReader.Packet(d, packet[1..]).0 == d1
    requires TsReader.Packet(d, packet[1..]).1 == [TsReader.Read(pid, data)]
    requires Delivers(TsReader.Packets(d1, Tails(rest)).1, pid, data', [])
    ensures TsReader.Packets(d, Tails([packet] + rest)).0 == TsReader.Packets(d1, Tails(rest)).0
    ensures Delivers(TsReader.Packets(d, Tails([packet] + rest)).1, pid, data + data', [])
  {
    hide TsReader.Packet, TsReader.Packets, Delivers;
    TailsCons(packet, rest);
    PacketsAppend(d, [packet[1..]], Tails(rest));
    PacketsOne(d, packet[1..]);
    ReadDelivers(pid, data);
    DeliversBoth([TsReader.Read(pid, data)], TsReader.Packets(d1, Tails(rest)).1, pid, data, data', [], []);
    var none: seq<(int, nat, nat)> := [];
    assert none + none == none;
  }

  // ----- packets that start a PES packet ------------------------------------------------------------

  /** The shape of a first packet: header, adaptation if any, PES header, payload. */
  lemma StartRead(m: Mux, d: Demux, fill: byte, pid: int, time: UInt32, compositionOffset: UInt16, randomAccess: bool,
                  size: UInt32, header: TsReader.PesHeader, payload: seq<byte>)
    requires Linked(m, d) && HasReader(d, pid) && 33 <= pid < 512
    requires fill <= if size == 0 then 175 else 174 - StampsLength(compositionOffset)
    requires header == TsReader.ReadPesHeader(PesHeader(pid, time, compositionOffset, size) + payload) && header.found
    ensures var first := First(m, fill, pid, time, compositionOffset, randomAccess, size);
      var packet := TsReader.Packet(d, (first.1 + payload)[1..]);
      packet.0 == Seen(d, pid, Counter(m, pid))
      && packet.1 == (if header.stamps.Some? then [TsReader.Times(pid, header.stamps.value.0, header.stamps.value.1)] else [])
                     + [TsReader.Read(pid, header.rest)]
  {
    hide TsReader.Payload, TsReader.Packet, TsReader.SkipAdaptation, TsReader.ReadPesHeader, Head, Adaptation, Counter, Count,
      AfterAdaptation, PesHeader, Seen, Linked;
    var counter := Counter(m, pid);
    var head, pes := Head(true, pid, fill > 0, counter), PesHeader(pid, time, compositionOffset, size);
    var field := if fill > 0 then Adaptation(Count(m, pid), pid, time, randomAccess, fill) else [];
    FourParts(head, field, pes, payload);
    ProgramPacket(d, true, pid, fill > 0, counter, field + (pes + payload));
    if fill > 0 {
      FieldSkipped(Count(m, pid), pid, time, randomAccess, fill, pes + payload);
    } else {
      assert [] + (pes + payload) == pes + payload;
    }
    HeaderPacket(m, d, pid, header, pes + payload);
  }

  lemma FourParts(a: seq<byte>, b: seq<byte>, c: seq<byte>, d: seq<byte>)
    ensures a + b + c + d == a + (b + (c + d))
  {
    Associative(a + b, c, d);
    Associative(a, b, c + d);
  }

  lemma FirstKeeps(m: Mux, fill: byte, pid: int, time: UInt32, compositionOffset: UInt16, randomAccess: bool, size: UInt32)
    requires 0 <= pid < 512
    requires fill <= if size == 0 then 175 else 174 - StampsLength(compositionOffset)
    ensures var m1 := First(m, fill, pid, time, compositionOffset, randomAccess, size).0;
      SameProgram(m, m1) && m1.pids == Count(m, pid).pids
  {
    hide Adaptation, Head, ClockGoes, PesHeader;
  }

  /** A clock packet hands over nothing. */
  lemma ClockRead(m: Mux, d: Demux, time: UInt32)
    requires Synced(m, d) && !m.changed
    ensures var clock := ClockPacket(m, time);
      var packet := TsReader.Packet(d, clock.1[1..]);
      Synced(clock.0, packet.0) && SameProgram(m, clock.0) && packet.1 == [TsReader.Read(m.pidPCR, [])]
  {
    hide First, Streams, TsReader.ReaderOf, TsReader.Packet, Linked, Known, TsReader.ReadPesHeader, PesHeader;
    var pid := m.pidPCR;
    CurrentReader(m, d, 0);
    EmptyPesReads(pid, time, 0);
    var header := TsReader.PesHeader(true, None, []);
    assert PesHeader(pid, time, 0, 0) + [] == PesHeader(pid, time, 0, 0);
    StartRead(m, d, 175, pid, time, 0, false, 0, header, []);
    FirstKeeps(m, 175, pid, time, 0, false, 0);
    assert ClockPacket(m, time).1 + [] == ClockPacket(m, time).1;
    assert First(m, 175, m.pidPCR, time, 0, false, 0).0 == ClockPacket(m, time).0;
    hide Synced, ClockPacket;
    SeenSynced(m, First(m, 175, m.pidPCR, time, 0, false, 0).0, d, pid);
  }

  /** A reader with current tables has a track reader for every track. */
  lemma CurrentReader(m: Mux, d: Demux, i: nat)
    requires Valid(m) && Current(m, d) && i < |TrackStreams(m)|
    ensures HasReader(d, TrackStreams(m)[i].0) && 33 <= TrackStreams(m)[i].0 < 512
  {
    hide Streams, TsReader.ReaderOf, Valid;
    StreamRange(m, i);
  }

  // ----- tables ------------------------------------------------------------------------------------

  lemma AssociateRead(m: Mux, d: Demux)
    requires Synced(m, d)
    ensures TsReader.Associate(d, map[PMT_PID := 0xFF], Crc(PAT_SECTION))
      == (if d.pmts == map[] then TsReader.Demux(d.programs, map[PMT_PID := 0xFF], Crc(PAT_SECTION)) else d, [])
  {
    hide Crc, Valid, Linked, Current;
    PatChecksum();
  }

  /** The reader's tables once it has read the association packet. */
  function Associated(d: Demux): Demux
  {
    if d.pmts == map[] then TsReader.Demux(d.programs, map[PMT_PID := 0xFF], Crc(PAT_SECTION)) else d
  }

  /** What the map packet then does. */
  function Mapped(d: Demux, version: byte, s: seq<(int, byte)>): (Demux, seq<Event>)
    requires PMT_PID in d.pmts
  {
    if version % 32 == d.pmts[PMT_PID] then (d, [])
    else
      TsReader.SetPrograms(d.(pmts := d.pmts[PMT_PID := version % 32]), Entries(s) + Be32(Crc(PmtSection(version, s))))
  }

  lemma TablePacketsRead(m: Mux, d: Demux)
    requires Synced(m, d) && TrackStreams(m) != []
    ensures TsReader.Packets(d, Tails(TablePackets(m)))
      == Mapped(Associated(d), WithVersion(m).version, TrackStreams(m))
  {
    hide Crc, PatPacket, PmtPacket, TsReader.Packet, TsReader.Associate, Linked, TsReader.SetPrograms, Counter, Count,
      Streams, Current, WithVersion, TsReader.Packets;
    var m1 := WithVersion(m);
    var s := TrackStreams(m);
    var pat := PatPacket(Counter(m1, 0));
    var pmt := PmtPacket(Counter(Count(m1, 0), PMT_PID), m1.version, s);
    assert TablePackets(m) == [pat] + [pmt];
    TailsCons(pat, [pmt]);
    assert Tails([pmt]) == [pmt[1..]];
    var d1 := Associated(d);
    PacketsAppend(d, [pat[1..]], [pmt[1..]]);
    PacketsOne(d, pat[1..]);
    PatReads(d, Counter(m1, 0));
    AssociateRead(m, d);
    PacketsOne(d1, pmt[1..]);
    NoTablePrograms(m, d);
    PmtReads(d1, Counter(Count(m1, 0), PMT_PID), m1.version, s);
    var mapped := Mapped(d1, m1.version, s);
    assert [] + mapped.1 == mapped.1;
  }

  lemma TablesLinked(m: Mux, d: Demux, time: UInt32)
    requires Valid(m) && Linked(m, d)
    ensures Linked(Tables(m, time).0, d)
  {
    hide PatPacket, PmtPacket, Streams, ClockPid, Valid;
    var m' := Tables(m, time).0;
    assert forall q :: q != 0 && q != PMT_PID ==> Counter(m', q) == Counter(m, q);
  }

  lemma AssignedLinked(m: Mux, d: Demux, d': Demux, s: seq<(int, byte)>)
    requires Linked(m, d) && Assigned(d, d', s)
    requires forall i :: 0 <= i < |s| ==> 33 <= s[i].0 < 512
    ensures Linked(m, d')
  {
    hide TsReader.ReaderOf, Counter;
    forall q | q in d'.programs
      ensures 33 <= q < 512
      ensures if d'.programs[q].sequence == 0xFF then d'.programs[q].waitHeader
              else d'.programs[q].sequence == (Counter(m, q) + 15) % 16
    {
      if InMap(q, s) {
        var i :| 0 <= i < |s| && s[i].0 == q;
        assert d'.programs[q] == TsReader.ProgramOf(d, q).(reader := TsReader.ReaderOf(s[i].1));
      }
    }
  }

  lemma TablesFields(m: Mux, time: UInt32)
    requires Valid(m) && TrackStreams(m) != []
    ensures var m' := Tables(m, time).0;
      m'.version == WithVersion(m).version && !m'.changed && TrackStreams(m') == TrackStreams(m)
      && m'.pidPCR == TrackStreams(m)[0].0
  {
    hide PatPacket, PmtPacket, Streams, Valid;
  }

  /** Whichever version the reader has, the tables bring it up to date. */
  lemma TablesRead(m: Mux, d: Demux, time: UInt32)
    requires Synced(m, d) && TrackStreams(m) != []
    ensures var read := TsReader.Packets(d, Tails(TablePackets(m)));
      Synced(Tables(m, time).0, read.0) && Quiet(read.1)
  {
    hide Crc, TablePackets, TsReader.Packets, Linked, Tables, TsReader.SetPrograms, Streams, Valid, Known, Assigned,
      Distinct, Supported, PmtSection, Entries;
    var s := TrackStreams(m);
    var version := WithVersion(m).version;
    TablePacketsRead(m, d);
    TablesFields(m, time);
    if m.changed {
      VersionMoves(m.version);
      StreamsDistinct(m);
      var d1 := Associated(d).(pmts := Associated(d).pmts[PMT_PID := version % 32]);
      var crc := Be32(Crc(PmtSection(version, s)));
      EntriesRead(d1, s, crc);
      SameLinks(m, d, d1);
      var d2 := TsReader.SetPrograms(d1, Entries(s) + crc).0;
      StreamsInRange(m);
      AssignedLinked(m, d1, d2, s);
      TablesLinked(m, d2, time);
      AssignedKnown(d1, d2, s);
      assert d2.pmts == map[PMT_PID := version % 32];
      assert PMT_PID in d2.pmts;
    } else {
      TablesLinked(m, d, time);
    }
  }

  lemma StreamsInRange(m: Mux)
    requires Valid(m)
    ensures forall i :: 0 <= i < |TrackStreams(m)| ==> 33 <= TrackStreams(m)[i].0 < 512
  {
    hide Valid, Streams;
    forall i | 0 <= i < |TrackStreams(m)| ensures 33 <= TrackStreams(m)[i].0 < 512 {
      StreamRange(m, i);
    }
  }

  lemma SameLinks(m: Mux, d: Demux, d': Demux)
    requires Linked(m, d) && d'.programs == d.programs
    ensures Linked(m, d')
  {
  }

  lemma AssignedKnown(d: Demux, d': Demux, s: seq<(int, byte)>)
    requires Assigned(d, d', s)
    ensures Known(s, d') && d'.pmts == d.pmts && d'.crcPAT == d.crcPAT
  {
    hide TsReader.ReaderOf;
  }

  lemma NoTablePrograms(m: Mux, d: Demux)
    requires Linked(m, d)
    ensures PMT_PID !in d.programs
  {
  }

  lemma VersionMoves(version: byte)
    ensures (version + 1) % 256 % 32 != version % 32
  {
  }

  // ----- a whole stream ----------------------------------------------------------------------------------

  /** Reading `ps` from `d` brings the reader in step with `m'` and delivers `data`. */
  ghost predicate Step(d: Demux, ps: seq<Packet188>, m': Mux, pid: int, data: seq<byte>, stamps: seq<(int, nat, nat)>)
  {
    && Synced(m', TsReader.Packets(d, Tails(ps)).0)
    && Delivers(TsReader.Packets(d, Tails(ps)).1, pid, data, stamps)
  }

  function After(d: Demux, ps: seq<Packet188>): Demux
  {
    TsReader.Packets(d, Tails(ps)).0
  }

  lemma TailsAppend(a: seq<Packet188>, b: seq<Packet188>)
    ensures Tails(a + b) == Tails(a) + Tails(b)
  {
  }

  lemma StepJoin(d: Demux, a: seq<Packet188>, b: seq<Packet188>, m1: Mux, m2: Mux, pid: int,
                 data: seq<byte>, data': seq<byte>, stamps: seq<(int, nat, nat)>, stamps': seq<(int, nat, nat)>)
    requires Step(d, a, m1, pid, data, stamps) && Step(After(d, a), b, m2, pid, data', stamps')
    ensures Step(d, a + b, m2, pid, data + data', stamps + stamps')
    ensures After(d, a + b) == After(After(d, a), b)
  {
    hide Synced, Delivers, TsReader.Packets, Tails;
    TailsAppend(a, b);
    PacketsAppend(d, Tails(a), Tails(b));
    DeliversBoth(TsReader.Packets(d, Tails(a)).1, TsReader.Packets(After(d, a), Tails(b)).1, pid, data, data', stamps, stamps');
  }

  lemma NoPackets(d: Demux, m: Mux, pid: int)
    requires Synced(m, d)
    ensures Step(d, [], m, pid, [], []) && After(d, []) == d
  {
    hide Synced, TsReader.Packets;
    assert Tails([]) == [];
    TsReader.PacketsNone(d);
  }

  lemma OnePacket(d: Demux, p: Packet188)
    ensures TsReader.Packets(d, Tails([p])).0 == TsReader.Packet(d, p[1..]).0
    ensures TsReader.Packets(d, Tails([p])).1 == TsReader.Packet(d, p[1..]).1
  {
    hide TsReader.Packet, TsReader.Packets;
    assert Tails([p]) == [p[1..]];
    PacketsOne(d, p[1..]);
  }

  /** The tables, if due, leave writer and reader with the same current tables. */
  lemma MaybeTablesRead(m: Mux, d: Demux, time: UInt32, pid: int)
    requires Synced(m, d) && TrackStreams(m) != []
    ensures var m' := MaybePmt(m, time).0;
      Step(d, MaybeTables(m, time), m', pid, [], []) && !m'.changed && TrackStreams(m') == TrackStreams(m)
  {
    hide Synced, TablePackets, Tables, Streams, TsReader.Packets, Valid, Quiet, Delivers;
    SyncedParts(m, d);
    if PmtDue(m, time) {
      TablesRead(m, d, time);
      TablesFields(m, time);
      QuietDelivers(TsReader.Packets(d, Tails(TablePackets(m))).1, pid);
    } else {
      NoPackets(d, m, pid);
    }
  }

  lemma MaybeClockRead(m: Mux, d: Demux, e: EsInfo)
    requires Synced(m, d) && !m.changed && e.esSize > 0
    ensures var m' := if ClockUrgent(m, e.pid, e.time, e.compositionOffset, e.esSize) then ClockPacket(m, e.time).0 else m;
      Step(d, MaybeClock(m, e), m', e.pid, [], []) && SameProgram(m, m')
  {
    hide Synced, ClockPacket, ClockUrgent, TsReader.Packet, TsReader.Packets, Valid, Delivers;
    SyncedParts(m, d);
    if ClockUrgent(m, e.pid, e.time, e.compositionOffset, e.esSize) {
      ClockRead(m, d, e.time);
      OnePacket(d, ClockPacket(m, e.time).1);
      EmptyRead(m.pidPCR, e.pid);
    } else {
      NoPackets(d, m, e.pid);
    }
  }

  lemma EmptyRead(q: int, pid: int)
    ensures Delivers([TsReader.Read(q, [])], pid, [], [])
  {
    forall x ensures Reads([TsReader.Read(q, [])], x) == [] {
      assert Reads([], x) == [];
    }
  }

  /** The first packet announces the stamps and hands over its share of the payload. */
  lemma FirstRead(m: Mux, d: Demux, e: EsInfo, fill: byte, p: seq<byte>)
    requires Synced(m, d) && !m.changed && ValidInfo(e) && Stamped(e) && e.esSize > 0
    requires HasReader(d, e.pid) && 33 <= e.pid
    requires fill <= 174 - StampsLength(e.compositionOffset)
    ensures var first := First(m, fill, e.pid, e.time, e.compositionOffset, e.randomAccess, e.esSize);
      |p| == first.2 ==>
        Step(d, [first.1 + p], first.0, e.pid, p, [(e.pid, Pts(e.time, e.compositionOffset), Dts(e.time) as nat)])
        && SameProgram(m, first.0)
        && HasReader(After(d, [first.1 + p]), e.pid) && !After(d, [first.1 + p]).programs[e.pid].waitHeader
  {
    hide Synced, First, TsReader.Packet, TsReader.Packets, TsReader.ReadPesHeader, Valid, Dts, Delivers, Linked, Counter, Count;
    SyncedParts(m, d);
    var first := First(m, fill, e.pid, e.time, e.compositionOffset, e.randomAccess, e.esSize);
    var pts, dts := Pts(e.time, e.compositionOffset), Dts(e.time) as nat;
    if |p| == first.2 {
      PesReads(e.pid, e.time, e.compositionOffset, e.esSize, p);
      var header := TsReader.PesHeader(true, Some((pts, dts)), p);
      StartRead(m, d, fill, e.pid, e.time, e.compositionOffset, e.randomAccess, e.esSize, header, p);
      FirstKeeps(m, fill, e.pid, e.time, e.compositionOffset, e.randomAccess, e.esSize);
      SeenSynced(m, first.0, d, e.pid);
      OnePacket(d, first.1 + p);
      ReadDelivers(e.pid, p);
      TimesDelivers(e.pid, pts, dts);
      DeliversBoth([TsReader.Times(e.pid, pts, dts)], [TsReader.Read(e.pid, p)], e.pid, [], p, [(e.pid, pts, dts)], []);
      assert [] + p == p && [(e.pid, pts, dts)] + [] == [(e.pid, pts, dts)];
    }
  }

  /** The stream of one frame: what must come out of the reader, and how often. Times are 200
      milliseconds late, in ticks of 90 kHz; sum and product are taken on 32 bits. */
  function FrameStamps(e: EsInfo): seq<(int, nat, nat)>
  {
    var dts: nat := (e.time + 200) % U32 * 90 % U32;
    [(e.pid, dts + 90 * e.compositionOffset, dts)]
  }

  lemma FrameStampsAre(e: EsInfo)
    ensures FrameStamps(e) == [(e.pid, Pts(e.time, e.compositionOffset), Dts(e.time) as nat)]
  {
  }

  lemma StepSynced(d: Demux, ps: seq<Packet188>, m: Mux, pid: int, data: seq<byte>, stamps: seq<(int, nat, nat)>)
    requires Step(d, ps, m, pid, data, stamps)
    ensures Synced(m, After(d, ps))
  {
  }

  function PreludePackets(m: Mux, e: EsInfo): seq<Packet188>
    requires Valid(m) && e.esSize > 0
  {
    MaybeTables(m, e.time) + MaybeClock(MaybePmt(m, e.time).0, e)
  }

  lemma PreludeRead(m: Mux, d: Demux, e: EsInfo, i: nat)
    requires Synced(m, d) && e.esSize > 0
    requires i < |TrackStreams(m)| && TrackStreams(m)[i].0 == e.pid
    ensures var m' := Prelude(m, e.pid, e.time, e.compositionOffset, e.esSize).0;
      var d' := After(d, PreludePackets(m, e));
      Step(d, PreludePackets(m, e), m', e.pid, [], [])
      && !m'.changed && TrackStreams(m') == TrackStreams(m) && HasReader(d', e.pid) && 33 <= e.pid
  {
    hide Synced, Step, After, MaybePmt, MaybeTables, MaybeClock, ClockPacket, ClockUrgent, Valid, Streams, Current, HasReader;
    SyncedParts(m, d);
    var tables, m1 := MaybeTables(m, e.time), MaybePmt(m, e.time).0;
    MaybeTablesRead(m, d, e.time, e.pid);
    var d1 := After(d, tables);
    StepSynced(d, tables, m1, e.pid, [], []);
    SyncedParts(m1, d1);
    var clock := MaybeClock(m1, e);
    var m2 := Prelude(m, e.pid, e.time, e.compositionOffset, e.esSize).0;
    MaybeClockRead(m1, d1, e);
    StepJoin(d, tables, clock, m1, m2, e.pid, [], [], [], []);
    EmptySums();
    var d2 := After(d, tables + clock);
    StepSynced(d, tables + clock, m2, e.pid, [], []);
    SyncedParts(m2, d2);
    SameTracks(m1, m2);
    CurrentReader(m2, d2, i);
  }

  lemma EmptySums()
    ensures forall s: seq<byte> :: [] + s == s
    ensures forall s: seq<(int, nat, nat)> :: [] + s == s
    ensures forall s: seq<(int, nat, nat)> :: s + [] == s
  {
  }

  lemma SameTracks(m: Mux, m': Mux)
    requires SameProgram(m, m')
    ensures TrackStreams(m') == TrackStreams(m) && m'.changed == m.changed
  {
  }

  /** The first packet, behind tables and clock, opens the stream at its pid. */
  lemma FrameOpens(m: Mux, d: Demux, e: EsInfo, p: seq<byte>, i: nat)
    requires Synced(m, d) && ValidInfo(e) && Stamped(e) && |p| == e.esSize > 0
    requires i < |TrackStreams(m)| && TrackStreams(m)[i].0 == e.pid
    ensures Valid(m)
    ensures var first := FirstPacket(m, e, p);
      var opening := PreludePackets(m, e) + [first.1];
      && Step(d, opening, first.0, e.pid, p[..first.2], FrameStamps(e))
      && !first.0.changed && TrackStreams(first.0) == TrackStreams(m)
      && HasReader(After(d, opening), e.pid) && !After(d, opening).programs[e.pid].waitHeader
  {
    hide Synced, Step, After, First, MaybePmt, MaybeTables, MaybeClock, Valid, Streams, Stamped, StartFill,
      HasReader, PreludePackets, Prelude, Dts, FrameStamps;
    FrameStampsAre(e);
    SyncedParts(m, d);
    PreludeRead(m, d, e, i);
    var prelude := PreludePackets(m, e);
    var m1 := Prelude(m, e.pid, e.time, e.compositionOffset, e.esSize).0;
    var d1 := After(d, prelude);
    StepSynced(d, prelude, m1, e.pid, [], []);
    var first := FirstPacket(m, e, p);
    var p1 := p[..first.2];
    FirstRead(m1, d1, e, StartFill(MaybePmt(m, e.time).0, e.pid, e.time, e.compositionOffset, e.esSize), p1);
    StepJoin(d, prelude, [first.1], m1, first.0, e.pid, [], p1, [], FrameStamps(e));
    EmptySums();
    SameTracks(m1, first.0);
  }

  /** Every packet of a stream, tables and clock packets in between, delivers the
      stream to its own pid, its stamps once, and nothing to any other. */
  lemma FrameRead(m: Mux, d: Demux, e: EsInfo, p: seq<byte>, i: nat)
    requires Synced(m, d) && ValidInfo(e) && Stamped(e) && |p| == e.esSize > 0
    requires i < |TrackStreams(m)| && TrackStreams(m)[i].0 == e.pid
    ensures var frame := FramePackets(m, e, p);
      Step(d, frame.1, frame.0, e.pid, p, FrameStamps(e))
      && !frame.0.changed && TrackStreams(frame.0) == TrackStreams(m)
  {
    hide Synced, Step, After, TailPackets, FirstPacket, Valid, Streams, Stamped, HasReader, PreludePackets;
    SyncedParts(m, d);
    FrameOpens(m, d, e, p, i);
    var first := FirstPacket(m, e, p);
    var p1, p2 := p[..first.2], p[first.2..];
    var opening := PreludePackets(m, e) + [first.1];
    StepSynced(d, opening, first.0, e.pid, p1, FrameStamps(e));
    TailStep(first.0, After(d, opening), e, p2);
    var tail := TailPackets(first.0, e, p2);
    StepJoin(d, opening, tail.1, first.0, tail.0, e.pid, p1, p2, FrameStamps(e), []);
    EmptySums();
    assert p1 + p2 == p;
    SameTracks(first.0, tail.0);
    FrameIs(m, e, p);
  }

  lemma FrameIs(m: Mux, e: EsInfo, p: seq<byte>)
    requires Valid(m) && ValidInfo(e) && Stamped(e) && |p| == e.esSize > 0
    ensures var first := FirstPacket(m, e, p);
      var tail := TailPackets(first.0, e, p[first.2..]);
      FramePackets(m, e, p) == (tail.0, PreludePackets(m, e) + [first.1] + tail.1)
  {
    hide FirstPacket, TailPackets, MaybeTables, MaybeClock, Valid, Stamped;
  }

  lemma TailStep(m: Mux, d: Demux, e: EsInfo, p: seq<byte>)
    requires Synced(m, d) && !m.changed && ValidInfo(e) && |p| < U32 && Valid(m)
    requires HasReader(d, e.pid) && !d.programs[e.pid].waitHeader
    ensures Step(d, TailPackets(m, e, p).1, TailPackets(m, e, p).0, e.pid, p, [])
    ensures SameProgram(m, TailPackets(m, e, p).0)
  {
    hide Synced, TailPackets, TsReader.Packets, Delivers;
    TailRead(m, d, e, p);
  }
}
