/** The packets RTP_H264 writes, byte by byte, and what a receiver makes of them. */
module RtpPackets {
  import opened Options
  import opened Bytes
  import opened RtpH264

  // ----- the bytes of a packet -------------------------------------------------------------

  /** What one packet gives a receiver: a fragment by the two bytes in front of it (section
      5.8 of RFC 6184), gathered bodies each behind its size (section 5.7.1), or nothing. */
  function Feed(v: Receiver, packet: seq<byte>): Option<Receiver>
  {
    if packet == [] then Some(v)
    else if packet[0] % 0x20 == 28 && |packet| > 1 then
      Receive(v, Part(packet[1] >= 0x80, packet[1] / 0x40 % 2 == 1, packet[2..]))
    else if packet[0] % 0x20 == 24 then FeedUnits(v, packet[1..])
    else None
  }

  function FeedUnits(v: Receiver, r: seq<byte>): Option<Receiver>
    decreases |r|
  {
    if r == [] then Some(v)
    else if |r| < 2 || |r| - 2 < U16(r) then None
    else
      var next := Receive(v, Whole(r[2..2 + U16(r)]));
      if next.None? then None else FeedUnits(next.value, r[2 + U16(r)..])
  }

  lemma PartFed(v: Receiver, first: bool, last: bool, data: seq<byte>, kind: byte, isNew: bool)
    ensures Feed(v, Encoded(Part(first, last, data), kind, isNew)) == Receive(v, Part(first, last, data))
    ensures Encoded(Part(first, last, data), kind, isNew) != []
  {
    hide Receive;
    var e := Encoded(Part(first, last, data), kind, isNew);
    assert e[2..] == data;
    var mark := (if first then 0x80 else 0) + (if last then 0x40 else 0) + kind % 0x20;
    assert e[1] == mark && (mark >= 0x80) == first && (mark / 0x40 % 2 == 1) == last;
    assert (kind / 0x20 % 4 * 0x20 + 28) % 0x20 == 28;
  }

  lemma UnitFed(v: Receiver, body: seq<byte>, rest: seq<byte>)
    requires |body| < 0x1_0000
    ensures FeedUnits(v, Be16(|body|) + body + rest)
      == var next := Receive(v, Whole(body)); if next.None? then None else FeedUnits(next.value, rest)
  {
    hide Receive, U16, Be16;
    var r := Be16(|body|) + body + rest;
    assert r == Be16(|body|) + (body + rest);
    ReadBe16(|body|, body + rest);
    assert r[2..2 + |body|] == body && r[2 + |body|..] == rest;
  }

  /** Behind whole units one more. */
  lemma {:induction false} UnitsAppend(v: Receiver, r: seq<byte>, body: seq<byte>)
    requires FeedUnits(v, r).Some? && |body| < 0x1_0000
    ensures FeedUnits(v, r + (Be16(|body|) + body)) == Receive(FeedUnits(v, r).value, Whole(body))
    decreases |r|
  {
    hide Receive, U16, Be16;
    var more := Be16(|body|) + body;
    if r == [] {
      UnitFed(v, body, []);
      assert [] + more == more + [];
    } else {
      var n := 2 + U16(r);
      SizeAhead(r, more);
      assert (r + more)[2..n] == r[2..n] && (r + more)[n..] == r[n..] + more;
      UnitsAppend(Receive(v, Whole(r[2..n])).value, r[n..], body);
    }
  }

  lemma SizeAhead(r: seq<byte>, more: seq<byte>)
    requires |r| >= 2
    ensures U16(r + more) == U16(r)
  {
  }

  // ----- the packets of a media packet ----------------------------------------------------------

  /** Bytes gathered so far: none, or bodies to which more may come. */
  predicate IsOpen(v: Receiver, open: seq<byte>)
  {
    open != [] ==> open[0] % 0x20 == 24 && FeedUnits(v, open[1..]).Some?
  }

  lemma WholeFed(v: Receiver, open: seq<byte>, body: seq<byte>, kind: byte)
    requires IsOpen(v, open) && Feed(v, open).Some? && |body| < 0x1_0000
    requires Receive(Feed(v, open).value, Whole(body)).Some?
    ensures var bytes := open + Encoded(Whole(body), kind, open == []);
      bytes != [] && IsOpen(v, bytes) && Feed(v, bytes) == Receive(Feed(v, open).value, Whole(body))
  {
    hide Receive, FeedUnits, Be16;
    var more := Be16(|body|) + body;
    var bytes := open + Encoded(Whole(body), kind, open == []);
    if open == [] {
      var mark := kind / 0x20 % 4 * 0x20 + 24;
      assert mark % 0x20 == 24;
      assert bytes == [mark] + more && bytes[1..] == more;
      UnitFed(v, body, []);
      assert more + [] == Be16(|body|) + body + [] == more;
      NothingFed(Receive(v, Whole(body)).value);
    } else {
      assert bytes == open + more && bytes[1..] == open[1..] + more && bytes[0] == open[0];
      UnitsAppend(v, open[1..], body);
    }
  }

  lemma NothingFed(v: Receiver)
    ensures FeedUnits(v, []) == Some(v)
  {
  }

  /** Calls with the given rooms, as in `Run`, and the packets they make: `open` is the one
      under way. */
  function Packets(s: State, r: seq<byte>, frame: Frame, open: seq<byte>, rooms: seq<UInt16>): seq<seq<byte>>
    requires s.size <= |r|
    decreases |rooms|
  {
    if rooms == [] then [open]
    else
      var c := Call(s, r, frame, open == [], rooms[0]);
      CallFits(s, r, frame, open == [], rooms[0]);
      var bytes := open + Encoded(c.2, c.0.kind, open == []);
      if c.3 then [bytes] + Packets(c.0, c.1, frame, [], rooms[1..]) else Packets(c.0, c.1, frame, bytes, rooms[1..])
  }

  function FeedAll(v: Receiver, packets: seq<seq<byte>>): Option<Receiver>
    decreases |packets|
  {
    if packets == [] then Some(v)
    else if Feed(v, packets[0]).None? then None
    else FeedAll(Feed(v, packets[0]).value, packets[1..])
  }

  /** A part is a packet of its own; a whole body leaves the packet open; nothing ends it. */
  lemma CallShape(s: State, r: seq<byte>, frame: Frame, isNew: bool, canWrite: UInt16)
    requires s.size <= |r|
    ensures var c := Call(s, r, frame, isNew, canWrite);
      && (c.2.Part? ==> isNew && c.3) && (c.2.Nothing? ==> c.3) && (c.2.Whole? ==> !c.3 && |c.2.body| < 0x1_0000)
  {
    hide NextUnit;
    NextUnitFits(s, r, frame);
  }

  /** What one call adds to a packet is received as the piece it stands for. */
  lemma CallFed(v: Receiver, open: seq<byte>, s: State, r: seq<byte>, frame: Frame, canWrite: UInt16)
    requires s.size <= |r| && IsOpen(v, open) && Feed(v, open).Some?
    requires Receive(Feed(v, open).value, Call(s, r, frame, open == [], canWrite).2).Some?
    ensures var c := Call(s, r, frame, open == [], canWrite);
      var bytes := open + Encoded(c.2, c.0.kind, open == []);
      && Feed(v, bytes) == Receive(Feed(v, open).value, c.2) && (!c.3 ==> IsOpen(v, bytes) && bytes != [])
  {
    hide Call, Receive, Feed, IsOpen, FeedUnits;
    CallShape(s, r, frame, open == [], canWrite);
    var c := Call(s, r, frame, open == [], canWrite);
    match c.2 {
      case Nothing =>
        assert open + [] == open;
        ReceiveNothing(Feed(v, open).value);
      case Part(first, last, data) =>
        FeedNothing(v);
        PartFed(v, first, last, data, c.0.kind, true);
        assert [] + Encoded(c.2, c.0.kind, true) == Encoded(c.2, c.0.kind, true);
      case Whole(body) =>
        WholeFed(v, open, body, c.0.kind);
    }
  }

  lemma FeedNothing(v: Receiver)
    ensures Feed(v, []) == Some(v) && IsOpen(v, [])
  {
  }

  /** The packets, byte by byte, give the receiver what the pieces do. */
  lemma {:induction false} PacketsFed(v: Receiver, open: seq<byte>, s: State, r: seq<byte>, frame: Frame, rooms: seq<UInt16>)
    requires s.size <= |r| && IsOpen(v, open) && Feed(v, open).Some?
    requires ReceiveAll(Feed(v, open).value, Run(s, r, frame, open == [], rooms).2).Some?
    ensures FeedAll(v, Packets(s, r, frame, open, rooms)) == ReceiveAll(Feed(v, open).value, Run(s, r, frame, open == [], rooms).2)
    decreases |rooms|
  {
    hide Call, Receive, Feed, IsOpen, Encoded;
    if rooms == [] {
      assert [open][1..] == [];
    } else {
      var c := Call(s, r, frame, open == [], rooms[0]);
      CallFits(s, r, frame, open == [], rooms[0]);
      var bytes := open + Encoded(c.2, c.0.kind, open == []);
      var pieces := Run(c.0, c.1, frame, c.3, rooms[1..]).2;
      assert ([c.2] + pieces)[0] == c.2 && ([c.2] + pieces)[1..] == pieces;
      CallFed(v, open, s, r, frame, rooms[0]);
      if c.3 {
        FeedNothing(Feed(v, bytes).value);
        PacketsFed(Feed(v, bytes).value, [], c.0, c.1, frame, rooms[1..]);
        var others := Packets(c.0, c.1, frame, [], rooms[1..]);
        assert ([bytes] + others)[0] == bytes && ([bytes] + others)[1..] == others;
      } else {
        PacketsFed(v, bytes, c.0, c.1, frame, rooms[1..]);
      }
    }
  }

  /** Any media packet, in any rooms: a receiver that goes by the bytes of the packets alone
      gets the bodies of its units, whole and in order, and all of them once nothing is left. */
  lemma BodiesArriveInPackets(s: State, packet: seq<byte>, frame: Frame, rooms: seq<UInt16>)
    requires s.size == 0
    ensures var run := Run(s, packet, frame, true, rooms);
      var v := FeedAll(Receiver([], None), Packets(s, packet, frame, [], rooms));
      && v.Some? && v.value.bodies <= Bodies(packet)
      && (run.0.size == 0 && run.1 == [] ==> v.value == Receiver(Bodies(packet), None))
  {
    hide Run, ReceiveAll, FeedAll, Packets, Bodies, Feed, IsOpen;
    BodiesArrive(s, packet, frame, rooms);
    FeedNothing(Receiver([], None));
    PacketsFed(Receiver([], None), [], s, packet, frame, rooms);
  }

  // ----- the type of a unit ---------------------------------------------------------------------------

  /** How much a unit matters: most for key frames and configurations, then other pictures. */
  function Importance(frame: Frame): byte
  {
    match frame
    case Key => 3
    case Config => 3
    case InterOrDisposable => 2
    case Unspecified => 0
    case Info => 0
  }

  /** A unit's type is that of its first byte, the one in front of its body, with the
      importance of the frame. */
  lemma {:induction false} KindIs(s: State, r: seq<byte>, frame: Frame)
    requires NextUnit(s, r, frame).2
    ensures var (unit, rest, _) := NextUnit(s, r, frame);
      var n := |r| - |rest|;
      n > 0 && r[n..] == rest && unit.kind == r[n - 1] % 0x20 + Importance(frame) * 0x20
    decreases |r|
  {
    hide U32At;
    var r1 := Drop(r, 4);
    assert |r| >= 4 ==> r1 == r[4..];
    if r != [] && Min(U32At(r), |r1|) == 0 {
      KindIs(s, r1, frame);
    }
  }

  /** A fragment's first byte holds that importance, its second the type. */
  lemma FragmentHeader(first: bool, last: bool, data: seq<byte>, kind: byte, importance: nat, isNew: bool)
    requires kind < 0x20 && importance < 4
    ensures var e := Encoded(Part(first, last, data), kind + importance * 0x20, isNew);
      e[0] == importance * 0x20 + 28 && e[1] % 0x20 == kind
  {
    assert (kind + importance * 0x20) / 0x20 == importance && (kind + importance * 0x20) % 0x20 == kind;
    var mark := (if first then 0x80 else 0) + (if last then 0x40 else 0);
    assert mark == 0x20 * (mark / 0x20);
    assert (mark + kind) % 0x20 == kind;
  }

  /** So does the first byte of a packet of whole bodies, whose types are not sent. */
  lemma GatheredHeader(body: seq<byte>, kind: byte, importance: nat)
    requires kind < 0x20 && importance < 4 && |body| < 0x1_0000
    ensures var e := Encoded(Whole(body), kind + importance * 0x20, true);
      e[0] == importance * 0x20 + 24 && e[1..3] == Be16(|body|) && e[3..] == body
  {
    hide Be16;
    assert (kind + importance * 0x20) / 0x20 == importance;
  }
}
