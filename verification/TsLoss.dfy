/** What TSReader makes of missing packets: it notices, says how much is missing, hands on
    nothing until the next header, and is then back in step. */
module TsLoss {
  import opened Bytes
  import opened Options
  import opened TsWriter
  import opened TsPackets
  import opened TsReading
  import opened TsRoundTrip
  import opened TsSession
  import TsReader

  // ----- any packets ---------------------------------------------------------------------

  /** Nothing of `pid` can be handed on: it is unknown or waits for a header. */
  predicate Waits(d: Demux, pid: int)
  {
    pid in d.programs ==> d.programs[pid].waitHeader
  }

  predicate StartsPes(p: seq<byte>)
  {
    U8(p) / 0x40 % 2 == 1
  }

  predicate HasContent(p: seq<byte>)
  {
    U8(Drop(p, 2)) / 0x10 % 2 == 1
  }

  function CounterOf(p: seq<byte>): byte
  {
    U8(Drop(p, 2)) % 16
  }

  /** A PES header as it is found in a packet, if one is announced and there. */
  function HeaderOf(p: seq<byte>): TsReader.PesHeader
  {
    if StartsPes(p) then TsReader.ReadPesHeader(TsReader.PacketContent(p))
    else TsReader.PesHeader(false, None, TsReader.PacketContent(p))
  }

  predicate Begins(p: seq<byte>, pid: int)
  {
    TsReader.PacketPid(p) == pid && HeaderOf(p).found
  }

  predicate Unheard(events: seq<Event>, pid: int)
  {
    forall i :: 0 <= i < |events| ==> !(events[i].Read? && events[i].pid == pid)
  }

  predicate NoReads(events: seq<Event>)
  {
    forall i :: 0 <= i < |events| ==> !events[i].Read?
  }

  lemma {:induction false} FlushesRead(programs: map<int, TsReader.Program>, pid: nat)
    ensures NoReads(TsReader.FlushFrom(programs, pid))
    decreases 0x2000 - pid
  {
    if pid < 0x2000 {
      FlushesRead(programs, pid + 1);
    }
  }

  lemma {:induction false} ProgramsWait(d: Demux, r: seq<byte>, pid: int)
    requires Waits(d, pid)
    ensures Waits(TsReader.SetPrograms(d, r).0, pid) && NoReads(TsReader.SetPrograms(d, r).1)
    decreases |r|
  {
    hide TsReader.AfterStream, TsReader.StreamPid, TsReader.ReaderOf;
    if |r| > 4 {
      var first := TsReader.SetProgram(d, TsReader.StreamPid(r), TsReader.ReaderOf(U8(r)));
      ProgramsWait(first.0, TsReader.AfterStream(r), pid);
    }
  }

  lemma TablesWait(d: Demux, pid: int, q: int, data: seq<byte>)
    requires Waits(d, pid)
    ensures Waits(TsReader.ParsePat(d, data).0, pid) && NoReads(TsReader.ParsePat(d, data).1)
    ensures q in d.pmts ==> Waits(TsReader.ParsePsi(d, q, data).0, pid) && NoReads(TsReader.ParsePsi(d, q, data).1)
  {
    hide TsReader.SetPrograms, TsReader.FlushFrom, TsReader.AddPmts, TsReader.MapStreams, TsReader.MapVersion;
    FlushesRead(d.programs, 0);
    if q in d.pmts && data != [] && data[0] < |data[1..]| && data[1..][data[0]] == 2 {
      var table := TsReader.Table(Drop(data[1..][data[0] + 1..], 2), U16(data[1..][data[0] + 1..]) % 0x400);
      ProgramsWait(d.(pmts := d.pmts[q := TsReader.MapVersion(table)]), TsReader.MapStreams(table), pid);
    }
  }

  lemma PayloadWaits(d: Demux, q: int, sequence: byte, hasHeader: bool, hasContent: bool, r: seq<byte>, pid: int)
    requires Waits(d, pid) && q in d.programs
    requires q == pid && hasHeader ==> !TsReader.ReadPesHeader(r).found
    ensures Waits(TsReader.Payload(d, q, sequence, hasHeader, hasContent, r).0, pid)
    ensures Unheard(TsReader.Payload(d, q, sequence, hasHeader, hasContent, r).1, pid)
  {
    hide TsReader.ReadPesHeader, TsReader.Missing;
  }

  /** One packet, whatever it is, short of a header of that pid. */
  lemma PacketWaits(d: Demux, p: seq<byte>, pid: int)
    requires Waits(d, pid) && !Begins(p, pid)
    ensures Waits(TsReader.Packet(d, p).0, pid) && Unheard(TsReader.Packet(d, p).1, pid)
  {
    hide TsReader.ParsePat, TsReader.ParsePsi, TsReader.PacketContent, TsReader.ReadPesHeader, TsReader.Payload,
      TsReader.PacketPid;
    var q, r := TsReader.PacketPid(p), TsReader.PacketContent(p);
    TablesWait(d, pid, q, r);
    if q in d.programs {
      PayloadWaits(d, q, CounterOf(p), StartsPes(p), HasContent(p), r, pid);
    }
  }

  /** Over any packets a pid that waits hands nothing on before one of its packets has a
      PES header. */
  lemma {:induction false} NothingBeforeHeader(d: Demux, ps: seq<seq<byte>>, pid: int)
    requires Waits(d, pid) && forall p :: p in ps ==> !Begins(p, pid)
    ensures Waits(TsReader.Packets(d, ps).0, pid) && Unheard(TsReader.Packets(d, ps).1, pid)
    decreases |ps|
  {
    hide TsReader.Packet, Waits, Begins;
    if ps != [] {
      var init, last := ps[..|ps| - 1], ps[|ps| - 1];
      NothingBeforeHeader(d, init, pid);
      PacketWaits(TsReader.Packets(d, init).0, last, pid);
    }
  }

  /** The packet of a program that comes after `k` of its packets are missing. Unless 16
      divides `k` the gap is noticed: the track reader is reset, the loss told at 184 bytes a
      packet, and only a PES header is handed on with what follows it. */
  lemma GapNoticedExactly(d: Demux, pid: int, p: seq<byte>, k: nat)
    requires HasReader(d, pid) && !d.programs[pid].waitHeader && d.programs[pid].sequence < 16
    requires 0 < pid < 0x1FFF && TsReader.PacketPid(p) == pid && HasContent(p)
    requires CounterOf(p) == (d.programs[pid].sequence + 1 + k) % 16
    ensures var heard := k % 16 == 0 || HeaderOf(p).found;
      var stamps := HeaderOf(p).stamps;
      && TsReader.Packet(d, p).1
         == (if k % 16 == 0 then [] else [TsReader.Flush(pid), TsReader.Lost(pid, 184 * (k % 16))])
            + (if stamps.Some? then [TsReader.Times(pid, stamps.value.0, stamps.value.1)] else [])
            + (if heard then [TsReader.Read(pid, HeaderOf(p).rest)] else [])
      && TsReader.Packet(d, p).0
         == d.(programs := d.programs[pid := d.programs[pid].(waitHeader := !heard, sequence := CounterOf(p))])
  {
    hide TsReader.PacketContent, TsReader.ReadPesHeader, TsReader.Missing, TsReader.PacketPid;
    AnyGapExactly(d, pid, p, k);
  }

  /** The same from any state, and for a packet without payload, whose counter must not move:
      nothing is flushed while a header is awaited, and a first packet misses none. */
  lemma AnyGapExactly(d: Demux, pid: int, p: seq<byte>, k: nat)
    requires HasReader(d, pid) && 0 < pid < 0x1FFF && TsReader.PacketPid(p) == pid
    requires CounterOf(p) == (d.programs[pid].sequence + (if HasContent(p) then 1 else 0) + k) % 16
    ensures var was, header := d.programs[pid], HeaderOf(p);
      var whole := k % 16 == 0;
      var heard := header.found || (whole && !was.waitHeader);
      && TsReader.Packet(d, p).1
         == (if whole || was.waitHeader then [] else [TsReader.Flush(pid)])
            + (if whole || was.sequence == 0xFF then [] else [TsReader.Lost(pid, 184 * (k % 16))])
            + (if header.stamps.Some? then [TsReader.Times(pid, header.stamps.value.0, header.stamps.value.1)] else [])
            + (if HasContent(p) && heard then [TsReader.Read(pid, header.rest)] else [])
      && TsReader.Packet(d, p).0 == d.(programs := d.programs[pid := TsReader.Program(was.reader, !heard, CounterOf(p))])
  {
    hide TsReader.PacketContent, TsReader.ReadPesHeader, TsReader.Missing, TsReader.PacketPid;
    MissingIs(CounterOf(p), d.programs[pid].sequence, HasContent(p), k);
  }

  lemma MissingIs(counter: byte, previous: byte, hasContent: bool, k: nat)
    requires counter == (previous + (if hasContent then 1 else 0) + k) % 16
    ensures TsReader.Missing(counter, previous, hasContent) == 184 * (k % 16)
  {
    var one := if hasContent then 1 else 0;
    var x := previous + one + k;
    assert counter - previous - one == k - x / 16 * 16;
    assert (k - x / 16 * 16) % 16 == k % 16;
  }

  // ----- the packets behind the first, from any of them on ---------------------------------------

  /** The writer behind `i` packets. */
  function TailMux(m: Mux, e: EsInfo, p: seq<byte>, i: nat): (r: Mux)
    requires Valid(m) && ValidInfo(e) && |p| < U32
    ensures Valid(r)
    decreases i
  {
    if i == 0 || p == [] then m
    else
      var next := Continue(m, e.pid, e.time, e.randomAccess, |p|);
      TailMux(next.0, e, p[next.2..], i - 1)
  }

  lemma ContinueSize(m: Mux, e: EsInfo, size: UInt32)
    requires ValidInfo(e) && size > 0
    ensures Continue(m, e.pid, e.time, e.randomAccess, size).2 == Min(size, 184)
    ensures Valid(m) ==> Valid(Continue(m, e.pid, e.time, e.randomAccess, size).0)
  {
    hide Adaptation, Head, ClockGoes;
  }

  /** What is left from packet `i` on is the tail of what is left of the payload. */
  ghost predicate TailAt(m: Mux, e: EsInfo, p: seq<byte>, i: nat)
    requires Valid(m) && ValidInfo(e) && |p| < U32
  {
    var tail, m' := TailPackets(m, e, p), TailMux(m, e, p, i);
    && i < |tail.1| && 184 * i < |p|
    && (tail.0, tail.1[i..]) == TailPackets(m', e, p[184 * i..])
    && Stepped(m, m', e.pid, i)
  }

  ghost predicate Stepped(m: Mux, m': Mux, pid: int, i: nat)
  {
    && SameProgram(m, m') && Counter(m', pid) == (Counter(m, pid) + i) % 256
    && forall q :: q != pid ==> Counter(m', q) == Counter(m, q)
  }

  lemma StepOn(m: Mux, m1: Mux, m2: Mux, pid: int, i: nat)
    requires SameProgram(m, m1) && m1.pids == Count(m, pid).pids && Stepped(m1, m2, pid, i)
    ensures Stepped(m, m2, pid, i + 1)
  {
    assert Counter(m1, pid) == (Counter(m, pid) + 1) % 256;
    WrapAdds(Counter(m, pid), i);
    assert forall q :: q != pid ==> Counter(m1, q) == Counter(m, q);
  }

  lemma WrapAdds(c: byte, i: nat)
    ensures ((c + 1) % 256 + i) % 256 == (c + (i + 1)) % 256
  {
  }

  /** All but the last carry 184 bytes. */
  lemma {:induction false} TailFrom(m: Mux, e: EsInfo, p: seq<byte>, i: nat)
    requires Valid(m) && ValidInfo(e) && |p| < U32 && i < |TailPackets(m, e, p).1|
    ensures TailAt(m, e, p, i)
    decreases i
  {
    hide Valid, Continue, TailPackets, Stepped;
    if i == 0 {
      assert p[184 * i..] == p && TailPackets(m, e, p).1[i..] == TailPackets(m, e, p).1;
      NotEmpty(m, e, p);
      StepNone(m, e.pid);
    } else {
      TailNext(m, e, p, i);
    }
  }

  lemma StepNone(m: Mux, pid: int)
    ensures Stepped(m, m, pid, 0)
  {
  }

  lemma {:induction false} TailNext(m: Mux, e: EsInfo, p: seq<byte>, i: nat)
    requires Valid(m) && ValidInfo(e) && |p| < U32 && 0 < i < |TailPackets(m, e, p).1|
    ensures TailAt(m, e, p, i)
    decreases i, 0
  {
    hide Valid, Continue, TailPackets, Stepped, SameProgram, Count;
    NotEmpty(m, e, p);
    TailUnfold(m, e, p);
    ContinueSize(m, e, |p|);
    ContinueKeeps(m, e, |p|);
    var next := Continue(m, e.pid, e.time, e.randomAccess, |p|);
    LongTail(next.0, e, p, next.2, i);
    var p1 := p[184..];
    TailFrom(next.0, e, p1, i - 1);
    StepOn(m, next.0, TailMux(next.0, e, p1, i - 1), e.pid, i - 1);
    assert p1[184 * (i - 1)..] == p[184 * i..];
    assert TailPackets(m, e, p).1[i..] == TailPackets(next.0, e, p1).1[i - 1..];
  }

  lemma NotEmpty(m: Mux, e: EsInfo, p: seq<byte>)
    requires Valid(m) && ValidInfo(e) && |p| < U32 && TailPackets(m, e, p).1 != []
    ensures p != []
  {
    hide Valid, Continue;
  }

  lemma LongTail(m: Mux, e: EsInfo, p: seq<byte>, n: nat, i: nat)
    requires Valid(m) && ValidInfo(e) && |p| < U32 && n == Min(|p|, 184)
    requires i > 0 && |TailPackets(m, e, p[n..]).1| > i - 1
    ensures n == 184
  {
    hide Valid, Continue;
  }

  /** What reading part of a stream does: what is handed on of it, what is told missing. */
  ghost predicate Tells(events: seq<Event>, pid: int, data: seq<byte>, stamps: seq<(int, nat, nat)>, losses: seq<(int, nat)>)
  {
    && TsRoundTrip.Stamps(events) == stamps && Losses(events) == losses && !Resets(events)
    && forall q :: Reads(events, q) == if q == pid then data else []
  }

  /** The losses told, with their pid. */
  function Losses(events: seq<Event>): seq<(int, nat)>
  {
    if events == [] then []
    else (if events[0].Lost? then [(events[0].from, events[0].bytes)] else []) + Losses(events[1..])
  }

  predicate Resets(events: seq<Event>)
  {
    exists i :: 0 <= i < |events| && events[i].ResetSource?
  }

  lemma {:induction false} LossesAppend(a: seq<Event>, b: seq<Event>)
    ensures Losses(a + b) == Losses(a) + Losses(b)
  {
    if a == [] {
      assert a + b == b;
    } else {
      assert (a + b)[0] == a[0] && (a + b)[1..] == a[1..] + b;
      LossesAppend(a[1..], b);
    }
  }

  lemma {:induction false} LosslessTells(events: seq<Event>)
    ensures Lossless(events) <==> Losses(events) == [] && !Resets(events)
  {
    if events != [] {
      LosslessTells(events[1..]);
      assert Lossless(events) <==> !events[0].Lost? && !events[0].ResetSource? && Lossless(events[1..]);
      assert Resets(events) <==> events[0].ResetSource? || Resets(events[1..]) by {
        if Resets(events) && !events[0].ResetSource? {
          var i :| 0 <= i < |events| && events[i].ResetSource?;
          assert events[1..][i - 1].ResetSource?;
        }
        if Resets(events[1..]) {
          var i :| 0 <= i < |events[1..]| && events[1..][i].ResetSource?;
          assert events[i + 1].ResetSource?;
        }
      }
    }
  }

  /** The packets in front of a gap are read. */
  lemma {:induction false} FrontRead(m: Mux, d: Demux, e: EsInfo, p: seq<byte>, i: nat)
    requires Synced(m, d) && !m.changed && Valid(m) && ValidInfo(e) && |p| < U32
    requires HasReader(d, e.pid) && !d.programs[e.pid].waitHeader && i < |TailPackets(m, e, p).1|
    ensures var front := TailPackets(m, e, p).1[..i];
      && 184 * i <= |p| && Step(d, front, TailMux(m, e, p, i), e.pid, p[..184 * i], [])
      && HasReader(After(d, front), e.pid) && !After(d, front).programs[e.pid].waitHeader
    decreases i
  {
    hide Synced, Valid, Continue, TailPackets, TsReader.Packets;
    if i == 0 {
      NoPackets(d, m, e.pid);
      assert TailPackets(m, e, p).1[..0] == [] && p[..0] == [];
    } else {
      FrontReadOn(m, d, e, p, i);
    }
  }

  lemma {:induction false} FrontReadOn(m: Mux, d: Demux, e: EsInfo, p: seq<byte>, i: nat)
    requires Synced(m, d) && !m.changed && Valid(m) && ValidInfo(e) && |p| < U32
    requires HasReader(d, e.pid) && !d.programs[e.pid].waitHeader && 0 < i < |TailPackets(m, e, p).1|
    ensures var front := TailPackets(m, e, p).1[..i];
      && 184 * i <= |p| && Step(d, front, TailMux(m, e, p, i), e.pid, p[..184 * i], [])
      && HasReader(After(d, front), e.pid) && !After(d, front).programs[e.pid].waitHeader
    decreases i, 0
  {
    hide Synced, Valid, Continue, TailPackets, TsReader.Packets, TsReader.Packet, Delivers, Counter, Count, Current, Linked;
    SyncedParts(m, d);
    NotEmpty(m, e, p);
    TailUnfold(m, e, p);
    ContinueSize(m, e, |p|);
    ContinueKeeps(m, e, |p|);
    ContinueRead(m, d, e, p);
    var next := Continue(m, e.pid, e.time, e.randomAccess, |p|);
    LongTail(next.0, e, p, next.2, i);
    var d1, p1 := Seen(d, e.pid, Counter(m, e.pid)), p[184..];
    SeenSynced(m, next.0, d, e.pid);
    FrontRead(next.0, d1, e, p1, i - 1);
    var packet: Packet188, front := next.1 + p[..184], TailPackets(next.0, e, p1).1[..i - 1];
    TailJoin(d, d1, packet, front, e.pid, p[..184], p1[..184 * (i - 1)]);
    assert TailPackets(m, e, p).1[..i] == [packet] + front;
    assert p[..184] + p1[..184 * (i - 1)] == p[..184 * i];
  }

  /** While it waits for a header, a program only counts. */
  lemma {:induction false} TailUnread(m: Mux, d: Demux, e: EsInfo, p: seq<byte>)
    requires Synced(m, d) && !m.changed && Valid(m) && ValidInfo(e) && |p| < U32 && HasReader(d, e.pid)
    requires d.programs[e.pid].waitHeader && d.programs[e.pid].sequence != 0xFF
    ensures Synced(TailPackets(m, e, p).0, After(d, TailPackets(m, e, p).1))
    ensures TsReader.Packets(d, Tails(TailPackets(m, e, p).1)).1 == []
    decreases |p|
  {
    hide Synced, Valid, Continue, TailPackets, TsReader.Packets, TsReader.Packet, TsReader.Payload, Counter, Count,
      Current, Linked;
    SyncedParts(m, d);
    if p == [] {
      TailNone(m, e);
      NoPackets(d, m, e.pid);
      assert Tails([]) == [];
      TsReader.PacketsNone(d);
    } else {
      TailUnfold(m, e, p);
      ContinueKeeps(m, e, |p|);
      ContinueSize(m, e, |p|);
      ContinuePacket(m, d, e, p);
      var next := Continue(m, e.pid, e.time, e.randomAccess, |p|);
      WaitingCounts(m, d, e.pid, p[..next.2]);
      var d1 := Counted(d, e.pid, Counter(m, e.pid), true);
      CountedSynced(m, next.0, d, e.pid, true);
      TailUnread(next.0, d1, e, p[next.2..]);
      var packet: Packet188, rest := next.1 + p[..next.2], TailPackets(next.0, e, p[next.2..]).1;
      OneThenRest(d, packet, rest);
    }
  }

  lemma TailNone(m: Mux, e: EsInfo)
    requires Valid(m) && ValidInfo(e)
    ensures TailPackets(m, e, []) == (m, [])
  {
  }

  /** A program that has read the packet counted `counter`, and waits or not. */
  function Counted(d: Demux, pid: int, counter: byte, wait: bool): Demux
    requires pid in d.programs
  {
    d.(programs := d.programs[pid := TsReader.Program(d.programs[pid].reader, wait, counter % 16)])
  }

  lemma WaitingCounts(m: Mux, d: Demux, pid: int, r: seq<byte>)
    requires Linked(m, d) && HasReader(d, pid) && d.programs[pid].waitHeader && d.programs[pid].sequence != 0xFF
    ensures TsReader.Payload(d, pid, Counter(m, pid) % 16, false, true, r) == (Counted(d, pid, Counter(m, pid), true), [])
  {
    hide TsReader.Missing, Counter;
    CounterFollows(Counter(m, pid), d.programs[pid].sequence);
    assert TsReader.LossEvents(pid, d.programs[pid], 0) == [];
  }

  /** The gap itself, at the packet behind it. */
  lemma GapTold(m: Mux, d: Demux, pid: int, counter: byte, k: nat, r: seq<byte>)
    requires Linked(m, d) && HasReader(d, pid) && !d.programs[pid].waitHeader
    requires counter == (Counter(m, pid) + k) % 256 && k % 16 != 0
    ensures TsReader.Payload(d, pid, counter % 16, false, true, r)
      == (Counted(d, pid, counter, true), [TsReader.Flush(pid), TsReader.Lost(pid, 184 * (k % 16))])
  {
    hide TsReader.Missing, Counter;
    var c, previous := Counter(m, pid), d.programs[pid].sequence;
    Counters(c, counter, previous, k);
    MissingIs(counter % 16, previous, true, k);
    var told := [TsReader.Flush(pid), TsReader.Lost(pid, 184 * (k % 16))];
    assert TsReader.LossEvents(pid, d.programs[pid], 184 * (k % 16)) == told;
    assert told + [] + [] == told;
  }

  lemma Counters(c: byte, counter: byte, previous: byte, k: nat)
    requires counter == (c + k) % 256 && previous == (c + 15) % 16
    ensures counter % 16 == (previous + 1 + k) % 16
  {
    var q, r := (c + k) / 256, (c + 15) / 16;
    assert counter == c + k - 16 * (16 * q);
    assert previous + 1 + k == c + k + 16 * (1 - r);
    Turns(c + k, 16 * q);
    Turns(c + k, r - 1);
  }

  lemma Turns(x: int, q: int)
    ensures (x - 16 * q) % 16 == x % 16
  {
  }

  lemma CountedSynced(m: Mux, m': Mux, d: Demux, pid: int, wait: bool)
    requires Synced(m, d) && !m.changed && pid in d.programs
    requires m'.pids == Count(m, pid).pids && SameProgram(m, m')
    ensures Synced(m', Counted(d, pid, Counter(m, pid), wait))
  {
    hide Streams, TsReader.ReaderOf, Known, Linked, Increasing, Counter;
    CountedLinked(m, m', d, pid, wait);
    CountedKnown(TrackStreams(m), d, pid, Counter(m, pid), wait);
  }

  lemma CountedLinked(m: Mux, m': Mux, d: Demux, pid: int, wait: bool)
    requires Linked(m, d) && pid in d.programs && m'.pids == Count(m, pid).pids
    ensures Linked(m', Counted(d, pid, Counter(m, pid), wait))
  {
    CountsAlike(m, m', pid);
    hide Counter;
    CounterNext(Counter(m, pid));
  }

  lemma CountsAlike(m: Mux, m': Mux, pid: int)
    requires m'.pids == Count(m, pid).pids
    ensures Counter(m', pid) == (Counter(m, pid) + 1) % 256
    ensures forall q :: q != pid ==> Counter(m', q) == Counter(m, q)
  {
  }

  lemma CountedKnown(s: seq<(int, byte)>, d: Demux, pid: int, counter: byte, wait: bool)
    requires Known(s, d) && pid in d.programs
    ensures Known(s, Counted(d, pid, counter, wait))
  {
    hide TsReader.ReaderOf;
  }

  lemma OneThenRest(d: Demux, packet: Packet188, rest: seq<Packet188>)
    ensures var d1 := TsReader.Packet(d, packet[1..]);
      TsReader.Packets(d, Tails([packet] + rest)).0 == TsReader.Packets(d1.0, Tails(rest)).0
      && TsReader.Packets(d, Tails([packet] + rest)).1 == d1.1 + TsReader.Packets(d1.0, Tails(rest)).1
  {
    hide TsReader.Packet, TsReader.Packets;
    TailsCons(packet, rest);
    PacketsAppend(d, [packet[1..]], Tails(rest));
    PacketsOne(d, packet[1..]);
  }

  /** A stream read on from packet `k` although packet 0 was due. */
  lemma GapAtFront(m: Mux, d: Demux, e: EsInfo, p: seq<byte>, k: nat)
    requires Synced(m, d) && !m.changed && Valid(m) && ValidInfo(e) && |p| < U32
    requires HasReader(d, e.pid) && !d.programs[e.pid].waitHeader && k < |TailPackets(m, e, p).1|
    ensures var kept := TailPackets(m, e, p).1[k..];
      && 184 * k < |p| && Synced(TailPackets(m, e, p).0, After(d, kept))
      && Tells(TsReader.Packets(d, Tails(kept)).1, e.pid, if k % 16 == 0 then p[184 * k..] else [], [],
               if k % 16 == 0 then [] else [(e.pid, 184 * (k % 16))])
  {
    hide Synced, Valid, Continue, TailPackets, TsReader.Packets, TsReader.Packet, Counter, Delivers, Tells;
    TailFrom(m, e, p, k);
    SyncedParts(m, d);
    var m', q := TailMux(m, e, p, k), p[184 * k..];
    if k % 16 == 0 {
      SteppedSynced(m, m', d, e.pid, k);
      TailStep(m', d, e, q);
      DeliversTells(TsReader.Packets(d, Tails(TailPackets(m', e, q).1)).1, e.pid, q, []);
    } else {
      GapThenDeaf(m, m', d, e, q, k);
    }
  }

  lemma SteppedSynced(m: Mux, m': Mux, d: Demux, pid: int, k: nat)
    requires Synced(m, d) && !m.changed && Stepped(m, m', pid, k) && k % 16 == 0 && Valid(m')
    ensures Synced(m', d) && !m'.changed
  {
    hide Streams, TsReader.ReaderOf, Known, Linked, Increasing, Counter;
    SteppedLinked(m, m', d, pid, k);
  }

  lemma SteppedLinked(m: Mux, m': Mux, d: Demux, pid: int, k: nat)
    requires Linked(m, d) && Stepped(m, m', pid, k) && k % 16 == 0
    ensures Linked(m', d)
  {
    hide Counter, SameProgram;
    SixteenTurns(Counter(m, pid), k);
  }

  lemma SixteenTurns(c: byte, k: nat)
    requires k % 16 == 0
    ensures ((c + k) % 256 + 15) % 16 == (c + 15) % 16
  {
    var q, n := (c + k) / 256, k / 16;
    assert (c + k) % 256 + 15 == c + 15 - 16 * (16 * q - n);
    Turns(c + 15, 16 * q - n);
  }

  lemma DeliversTells(events: seq<Event>, pid: int, data: seq<byte>, stamps: seq<(int, nat, nat)>)
    requires Delivers(events, pid, data, stamps)
    ensures Tells(events, pid, data, stamps, [])
  {
    hide Reads, TsRoundTrip.Stamps, Losses, Lossless;
    LosslessTells(events);
  }

  /** The first packet behind the gap. */
  lemma GapPacket(m: Mux, m': Mux, d: Demux, e: EsInfo, q: seq<byte>, k: nat)
    requires Linked(m, d) && Valid(m') && ValidInfo(e) && 0 < |q| < U32
    requires HasReader(d, e.pid) && !d.programs[e.pid].waitHeader && k % 16 != 0
    requires Stepped(m, m', e.pid, k)
    ensures var next := Continue(m', e.pid, e.time, e.randomAccess, |q|);
      TsReader.Packet(d, (next.1 + q[..next.2])[1..])
      == (Counted(d, e.pid, Counter(m', e.pid), true), [TsReader.Flush(e.pid), TsReader.Lost(e.pid, 184 * (k % 16))])
  {
    hide Linked, Valid, Continue, TsReader.Packet, TsReader.Payload, Counter, Counted;
    ReaderPid(m, d, e.pid);
    ContinuePacket(m', d, e, q);
    GapTold(m, d, e.pid, Counter(m', e.pid), k, q[..Continue(m', e.pid, e.time, e.randomAccess, |q|).2]);
  }

  lemma GapThenDeaf(m: Mux, m': Mux, d: Demux, e: EsInfo, q: seq<byte>, k: nat)
    requires Synced(m, d) && !m.changed && Valid(m') && ValidInfo(e) && 0 < |q| < U32
    requires HasReader(d, e.pid) && !d.programs[e.pid].waitHeader && k % 16 != 0 && Stepped(m, m', e.pid, k)
    ensures Synced(TailPackets(m', e, q).0, After(d, TailPackets(m', e, q).1))
    ensures Tells(TsReader.Packets(d, Tails(TailPackets(m', e, q).1)).1, e.pid, [], [], [(e.pid, 184 * (k % 16))])
  {
    hide Synced, Linked, Current, Valid, Continue, TailPackets, TsReader.Packets, TsReader.Packet, Counter, Count,
      Tells, Counted, Tails, Stepped,
      SameProgram;
    SyncedParts(m, d);
    TailUnfold(m', e, q);
    ContinueKeeps(m', e, |q|);
    ContinueSize(m', e, |q|);
    GapPacket(m, m', d, e, q, k);
    var next := Continue(m', e.pid, e.time, e.randomAccess, |q|);
    var d1 := Counted(d, e.pid, Counter(m', e.pid), true);
    GapSynced(m, m', next.0, d, e.pid, k);
    assert HasReader(d1, e.pid) && d1.programs[e.pid].waitHeader && d1.programs[e.pid].sequence != 0xFF by {
      CountedFields(d, e.pid, Counter(m', e.pid), true);
    }
    TailUnread(next.0, d1, e, q[next.2..]);
    OneThenRest(d, next.1 + q[..next.2], TailPackets(next.0, e, q[next.2..]).1);
    ToldTells(e.pid, 184 * (k % 16));
  }

  lemma CountedFields(d: Demux, pid: int, counter: byte, wait: bool)
    requires HasReader(d, pid)
    ensures var d1 := Counted(d, pid, counter, wait);
      HasReader(d1, pid) && d1.programs[pid].waitHeader == wait && d1.programs[pid].sequence < 16
  {
  }

  lemma ReaderPid(m: Mux, d: Demux, pid: int)
    requires Linked(m, d) && HasReader(d, pid)
    ensures 33 <= pid < 512
  {
  }

  lemma GapSynced(m: Mux, m': Mux, m1: Mux, d: Demux, pid: int, k: nat)
    requires Synced(m, d) && !m.changed && pid in d.programs && Stepped(m, m', pid, k)
    requires m1.pids == Count(m', pid).pids && SameProgram(m', m1)
    ensures Synced(m1, Counted(d, pid, Counter(m', pid), true)) && !m1.changed
  {
    hide Streams, TsReader.ReaderOf, Known, Linked, Increasing, Counter;
    GapLinked(m, m', m1, d, pid, k);
    CountedKnown(TrackStreams(m), d, pid, Counter(m', pid), true);
  }

  lemma GapLinked(m: Mux, m': Mux, m1: Mux, d: Demux, pid: int, k: nat)
    requires Linked(m, d) && pid in d.programs && Stepped(m, m', pid, k) && m1.pids == Count(m', pid).pids
    ensures Linked(m1, Counted(d, pid, Counter(m', pid), true))
  {
    CountsAlike(m', m1, pid);
    hide Counter;
    CounterNext(Counter(m', pid));
  }

  lemma ToldTells(pid: int, bytes: nat)
    ensures var told := [TsReader.Flush(pid), TsReader.Lost(pid, bytes)];
      Tells(told, pid, [], [], [(pid, bytes)]) && told + [] == told
  {
    var told := [TsReader.Flush(pid), TsReader.Lost(pid, bytes)];
    var last := told[1..];
    assert last == [TsReader.Lost(pid, bytes)] && last[1..] == [];
    assert Losses(last) == [(pid, bytes)] + Losses([]) == [(pid, bytes)];
    assert TsRoundTrip.Stamps(last) == [] + TsRoundTrip.Stamps([]) == [];
    forall q ensures Reads(told, q) == [] {
      assert Reads(last, q) == [] + Reads([], q) == [];
    }
  }

  // ----- a frame, and a run -------------------------------------------------------------------------

  lemma TellsBoth(a: seq<Event>, b: seq<Event>, pid: int, data: seq<byte>, data': seq<byte>,
                  stamps: seq<(int, nat, nat)>, stamps': seq<(int, nat, nat)>, losses: seq<(int, nat)>, losses': seq<(int, nat)>)
    requires Tells(a, pid, data, stamps, losses) && Tells(b, pid, data', stamps', losses')
    ensures Tells(a + b, pid, data + data', stamps + stamps', losses + losses')
  {
    hide Reads, TsRoundTrip.Stamps, Losses;
    StampsAppend(a, b);
    LossesAppend(a, b);
    forall q ensures Reads(a + b, q) == if q == pid then data + data' else [] {
      ReadsAppend(a, b, q);
    }
  }

  /** What is handed on of a payload with `k` packets missing behind its first `n` bytes. */
  function Heard(p: seq<byte>, n: nat, k: nat): seq<byte>
    requires n + 184 * k <= |p|
  {
    p[..n] + if k % 16 == 0 then p[n + 184 * k..] else []
  }

  function Missed(pid: int, k: nat): seq<(int, nat)>
  {
    if k % 16 == 0 then [] else [(pid, 184 * (k % 16))]
  }

  /** Packets without the `k` from `at` on. */
  function Without(ps: seq<Packet188>, at: nat, k: nat): seq<Packet188>
    requires at + k <= |ps|
  {
    ps[..at] + ps[at + k..]
  }

  lemma GapInTail(m: Mux, d: Demux, e: EsInfo, p: seq<byte>, i: nat, k: nat)
    requires Synced(m, d) && !m.changed && Valid(m) && ValidInfo(e) && |p| < U32
    requires HasReader(d, e.pid) && !d.programs[e.pid].waitHeader && i + k < |TailPackets(m, e, p).1|
    ensures var tail := TailPackets(m, e, p);
      var kept := Without(tail.1, i, k);
      && 184 * (i + k) < |p| && Synced(tail.0, After(d, kept))
      && Tells(TsReader.Packets(d, Tails(kept)).1, e.pid, Heard(p, 184 * i, k), [], Missed(e.pid, k))
  {
    hide Synced, Valid, TailPackets, TsReader.Packets, Delivers, Tells, Tails, Stepped;
    var tail := TailPackets(m, e, p).1;
    TailFrom(m, e, p, i);
    FrontRead(m, d, e, p, i);
    TailUnchanged(m, e, p, i);
    var front, m1, p1 := tail[..i], TailMux(m, e, p, i), p[184 * i..];
    var d1 := After(d, front);
    GapAtFront(m1, d1, e, p1, k);
    var later := tail[i + k..];
    assert tail[i..][k..] == later && p1[184 * k..] == p[184 * i + 184 * k..];
    TailsAppend(front, later);
    PacketsAppend(d, Tails(front), Tails(later));
    DeliversTells(TsReader.Packets(d, Tails(front)).1, e.pid, p[..184 * i], []);
    var none: seq<(int, nat, nat)>, missed := [], Missed(e.pid, k);
    assert none + none == none && [] + missed == missed;
    TellsBoth(TsReader.Packets(d, Tails(front)).1, TsReader.Packets(d1, Tails(later)).1, e.pid,
              p[..184 * i], if k % 16 == 0 then p1[184 * k..] else [], none, none, [], missed);
  }

  lemma TailUnchanged(m: Mux, e: EsInfo, p: seq<byte>, i: nat)
    requires Valid(m) && ValidInfo(e) && |p| < U32 && TailAt(m, e, p, i)
    ensures TailMux(m, e, p, i).changed == m.changed
  {
    hide Valid, TailPackets, TailMux;
  }

  /** A frame of which `k` packets are missing, none of them its first or last: what comes
      in front is handed on, the rest is not, and its size is told. At multiples of 16 the
      rest is handed on as if nothing were missing. */
  lemma GapInFrame(m: Mux, d: Demux, e: EsInfo, p: seq<byte>, track: nat, i: nat, k: nat)
    requires Synced(m, d) && ValidInfo(e) && Stamped(e) && |p| == e.esSize > 0
    requires track < |TrackStreams(m)| && TrackStreams(m)[track].0 == e.pid
    ensures Valid(m)
    ensures var frame, first, at := FramePackets(m, e, p), FirstPacket(m, e, p), |PreludePackets(m, e)| + 1 + i;
      at + k < |frame.1| ==>
        var kept := Without(frame.1, at, k);
        && first.2 + 184 * (i + k) < |p| && Synced(frame.0, After(d, kept))
        && Tells(TsReader.Packets(d, Tails(kept)).1, e.pid, Heard(p, first.2 + 184 * i, k), FrameStamps(e), Missed(e.pid, k))
  {
    hide Synced, Step, TailPackets, FirstPacket, Valid, Streams, Stamped, HasReader, PreludePackets, TsReader.Packets, Tails,
      Tells, FramePackets, After;
    SyncedParts(m, d);
    FrameOpens(m, d, e, p, track);
    FrameIs(m, e, p);
    var first := FirstPacket(m, e, p);
    var opening, p2 := PreludePackets(m, e) + [first.1], p[first.2..];
    var tail := TailPackets(first.0, e, p2).1;
    if i + k < |tail| {
      var kept := Without(tail, i, k);
      StepSynced(d, opening, first.0, e.pid, p[..first.2], FrameStamps(e));
      GapInTail(first.0, After(d, opening), e, p2, i, k);
      WithoutBehind(opening, tail, i, k);
      GapJoin(d, opening, kept, e.pid, p[..first.2], Heard(p2, 184 * i, k), FrameStamps(e), Missed(e.pid, k), first.0);
      assert p[..first.2] + p2[..184 * i] == p[..first.2 + 184 * i];
      assert p2[184 * i + 184 * k..] == p[first.2 + 184 * i + 184 * k..];
      assert p[..first.2] + Heard(p2, 184 * i, k) == Heard(p, first.2 + 184 * i, k);
    }
  }

  lemma WithoutBehind(a: seq<Packet188>, b: seq<Packet188>, i: nat, k: nat)
    requires i + k <= |b|
    ensures Without(a + b, |a| + i, k) == a + Without(b, i, k)
  {
    assert (a + b)[..|a| + i] == a + b[..i] && (a + b)[|a| + i + k..] == b[i + k..];
  }

  lemma GapJoin(d: Demux, a: seq<Packet188>, b: seq<Packet188>, pid: int, data: seq<byte>, data': seq<byte>,
                stamps: seq<(int, nat, nat)>, losses: seq<(int, nat)>, m: Mux)
    requires Step(d, a, m, pid, data, stamps)
    requires Tells(TsReader.Packets(After(d, a), Tails(b)).1, pid, data', [], losses)
    ensures After(d, a + b) == After(After(d, a), b)
    ensures Tells(TsReader.Packets(d, Tails(a + b)).1, pid, data + data', stamps, losses)
  {
    hide Synced, Delivers, Tells, TsReader.Packets, Tails;
    TailsAppend(a, b);
    PacketsAppend(d, Tails(a), Tails(b));
    DeliversTells(TsReader.Packets(d, Tails(a)).1, pid, data, stamps);
    assert stamps + [] == stamps && [] + losses == losses;
    TellsBoth(TsReader.Packets(d, Tails(a)).1, TsReader.Packets(After(d, a), Tails(b)).1, pid, data, data', stamps, [], [], losses);
  }

  /** Whether `k` packets can be missing of a frame from packet `at` on: behind the one
      its stream begins with, and not to its end. */
  predicate Missable(m: Mux, f: Frame, at: nat, k: nat)
    requires Valid(m) && ValidFrame(f) && Writable(f)
  {
    Sent(m, f) && Opens(m, f) <= at && at + k < |FrameStep(m, f).1|
  }

  /** How many packets of a frame there are up to the one its stream begins with. */
  function Opens(m: Mux, f: Frame): nat
    requires Valid(m) && Writable(f) && Sent(m, f)
  {
    RegisterValid(m, f);
    |PreludePackets(Register(m, f).1, Info(f))| + 1
  }

  /** How much of a frame its first packets carry. */
  function Ahead(m: Mux, f: Frame, at: nat): int
    requires Valid(m) && ValidFrame(f) && Writable(f) && Sent(m, f)
  {
    RegisterValid(m, f);
    InfoStamped(f);
    FirstPacket(Register(m, f).1, Info(f), Concat(f.chunks)).2 + 184 * (at - Opens(m, f))
  }

  lemma GapInStep(m: Mux, d: Demux, f: Frame, at: nat, k: nat)
    requires Synced(m, d) && Valid(m) && ValidFrame(f) && Writable(f) && Missable(m, f, at, k)
    ensures var kept := Without(FrameStep(m, f).1, at, k);
      && 0 <= Ahead(m, f, at) && Ahead(m, f, at) + 184 * k < |Concat(f.chunks)|
      && Synced(FrameStep(m, f).0, After(d, kept))
      && Tells(TsReader.Packets(d, Tails(kept)).1, Pid(f), Heard(Concat(f.chunks), Ahead(m, f, at), k), StampsOf(f),
               Missed(Pid(f), k))
  {
    hide Synced, Valid, FirstPacket, PreludePackets, FramePackets, Stamped, Streams, After, TsReader.Packets, Tails,
      Tells, Concat,
      Register, Missed, Heard, Without;
    RegisterValid(m, f);
    RegisterSynced(m, d, f);
    InfoStamped(f);
    var m' := Register(m, f).1;
    var i :| 0 <= i < |TrackStreams(m')| && TrackStreams(m')[i].0 == Pid(f);
    assert FrameStamps(Info(f)) == StampsOf(f);
    GapInFrame(m', d, Info(f), Concat(f.chunks), i, at - Opens(m, f), k);
  }

  predicate AllValid(frames: seq<Frame>)
  {
    forall f :: f in frames ==> ValidFrame(f) && Writable(f)
  }

  /** What is read of a run in which the packets of one frame are missing. */
  ghost predicate TellsRun(events: seq<Event>, m: Mux, before: seq<Frame>, f: Frame, after: seq<Frame>, at: nat, k: nat)
    requires Valid(m) && AllValid(before) && ValidFrame(f) && Writable(f) && AllValid(after)
    requires Missable(RunPackets(m, before).0, f, at, k)
    requires 0 <= Ahead(RunPackets(m, before).0, f, at)
    requires Ahead(RunPackets(m, before).0, f, at) + 184 * k <= |Concat(f.chunks)|
  {
    var m1 := RunPackets(m, before).0;
    var m2 := FrameStep(m1, f).0;
    var heard := Heard(Concat(f.chunks), Ahead(m1, f, at), k);
    && !Resets(events) && Losses(events) == Missed(Pid(f), k)
    && TsRoundTrip.Stamps(events) == SentStamps(m, before) + StampsOf(f) + SentStamps(m2, after)
    && forall q :: Reads(events, q)
                   == SentBytes(m, before, q) + (if q == Pid(f) then heard else []) + SentBytes(m2, after, q)
  }

  /** The packets of a run, but for those missing of one frame. */
  function Received(m: Mux, before: seq<Frame>, f: Frame, after: seq<Frame>, at: nat, k: nat): seq<Packet188>
    requires Valid(m) && AllValid(before) && ValidFrame(f) && Writable(f) && AllValid(after)
    requires Missable(RunPackets(m, before).0, f, at, k)
  {
    var first := RunPackets(m, before);
    var frame := FrameStep(first.0, f);
    first.1 + Without(frame.1, at, k) + RunPackets(frame.0, after).1
  }

  /** A run read with packets missing from one of its frames, in any chunks: the missing
      bytes are told, but for multiples of 16 packets; the frame is handed on up to them;
      and every other frame, before and after, comes whole. */
  lemma LossInRun(m: Mux, before: seq<Frame>, f: Frame, after: seq<Frame>, at: nat, k: nat, chunks: seq<seq<byte>>)
    requires Valid(m) && m.changed && AllValid(before) && ValidFrame(f) && Writable(f) && AllValid(after)
    requires Missable(RunPackets(m, before).0, f, at, k)
    requires Concat(chunks) == Flat(Received(m, before, f, after, at, k))
    ensures 0 <= Ahead(RunPackets(m, before).0, f, at)
    ensures Ahead(RunPackets(m, before).0, f, at) + 184 * k <= |Concat(f.chunks)|
    ensures TellsRun(TsReader.FeedAll(START, chunks).1, m, before, f, after, at, k)
  {
    hide Synced, Valid, TsReader.Packets, Tails, Tells, TellsRun, Without, FrameStep, RunPackets, Flat, Opens, Sent,
      Heard, Missed, Ahead,
      TsReader.FeedAll, TsReader.Split, Concat, ValidFrame, Writable, StampsOf, SentStamps, SentBytes, DeliversRun, After;
    SyncedFirst(m);
    var d0 := TsReader.EMPTY;
    RunRead(m, d0, before);
    var first := RunPackets(m, before);
    var d1 := After(d0, first.1);
    GapInStep(first.0, d1, f, at, k);
    var frame := FrameStep(first.0, f);
    var kept := Without(frame.1, at, k);
    var d2 := After(d1, kept);
    RunRead(frame.0, d2, after);
    var rest := RunPackets(frame.0, after).1;
    ThreeParts(d0, first.1, kept, rest);
    var ps := first.1 + kept + rest;
    SplitFlat(ps);
    FeedAllSplit(START, chunks);
    assert [] + Concat(chunks) == Concat(chunks);
    TellsThree(TsReader.Packets(d0, Tails(first.1)).1, TsReader.Packets(d1, Tails(kept)).1, TsReader.Packets(d2, Tails(rest)).1,
               m, before, f, after, at, k);
  }

  lemma ThreeParts(d: Demux, a: seq<Packet188>, b: seq<Packet188>, c: seq<Packet188>)
    ensures var d1 := After(d, a);
      var d2 := After(d1, b);
      TsReader.Packets(d, Tails(a + b + c)).1
      == TsReader.Packets(d, Tails(a)).1 + TsReader.Packets(d1, Tails(b)).1 + TsReader.Packets(d2, Tails(c)).1
  {
    hide TsReader.Packets, Tails;
    TailsAppend(a + b, c);
    TailsAppend(a, b);
    PacketsAppend(d, Tails(a + b), Tails(c));
    PacketsAppend(d, Tails(a), Tails(b));
  }

  lemma TellsThree(a: seq<Event>, b: seq<Event>, c: seq<Event>, m: Mux, before: seq<Frame>, f: Frame, after: seq<Frame>,
                   at: nat, k: nat)
    requires Valid(m) && AllValid(before) && ValidFrame(f) && Writable(f) && AllValid(after)
    requires var m1 := RunPackets(m, before).0;
      && Missable(m1, f, at, k) && 0 <= Ahead(m1, f, at) && Ahead(m1, f, at) + 184 * k <= |Concat(f.chunks)|
      && DeliversRun(a, m, before) && DeliversRun(c, FrameStep(m1, f).0, after)
      && Tells(b, Pid(f), Heard(Concat(f.chunks), Ahead(m1, f, at), k), StampsOf(f), Missed(Pid(f), k))
    ensures TellsRun(a + b + c, m, before, f, after, at, k)
  {
    hide Valid, FrameStep, RunPackets, Missable, Heard, Missed, Ahead, Concat, ValidFrame, Writable, StampsOf,
      SentStamps, SentBytes,
      Reads, TsRoundTrip.Stamps, Losses, Lossless, Resets;
    var missed := Missed(Pid(f), k);
    LosslessTells(a);
    LosslessTells(c);
    StampsAppend(a + b, c);
    StampsAppend(a, b);
    LossesAppend(a + b, c);
    LossesAppend(a, b);
    assert [] + missed + [] == missed;
    ResetsNone(a, b);
    ResetsNone(a + b, c);
    forall q ensures Reads(a + b + c, q) == Reads(a, q) + Reads(b, q) + Reads(c, q) {
      ReadsAppend(a + b, c, q);
      ReadsAppend(a, b, q);
    }
  }

  lemma ResetsNone(a: seq<Event>, b: seq<Event>)
    requires !Resets(a) && !Resets(b)
    ensures !Resets(a + b)
  {
  }
}
