/** RTP_H264::writeVideo: network units cut and gathered into packets of a given room
    (section 5.7 of RFC 6184 for gathered units, section 5.8 for cut ones). */
module RtpH264 {
  import opened Options
  import opened Bytes

  datatype Frame = Unspecified | Key | Config | InterOrDisposable | Info

  /** What is left of the unit under way, its type byte with the reference bits, and
      whether a part of it was sent. */
  datatype State = State(size: UInt32, kind: byte, fragmentation: bool)

  /** What one call writes: nothing, a part of a unit's body, or a whole body. */
  datatype Piece = Nothing | Part(first: bool, last: bool, data: seq<byte>) | Whole(body: seq<byte>)

  // ----- the units of a media packet ---------------------------------------------------

  /** The bodies of the units behind `r`, without their type bytes; empty units are passed over. */
  function Bodies(r: seq<byte>): seq<seq<byte>>
    decreases |r|
  {
    if r == [] then []
    else
      var unit := Take(Drop(r, 4), U32At(r));
      if unit == [] then Bodies(Drop(r, 4)) else [unit[1..]] + Bodies(Drop(Drop(r, 4), U32At(r)))
  }

  function References(frame: Frame): byte
  {
    match frame
    case Config => 0x60
    case Key => 0x60
    case InterOrDisposable => 0x40
    case _ => 0
  }

  /** Up to the body of the next unit: its state and the bytes from the body on. */
  function NextUnit(s: State, r: seq<byte>, frame: Frame): (State, seq<byte>, bool)
    decreases |r|
  {
    if r == [] then (s.(size := 0), [], false)
    else
      var r1 := Drop(r, 4);
      var size := Min(U32At(r), |r1|);
      if size == 0 then NextUnit(s, r1, frame)
      else (State(size - 1, r1[0] % 0x20 + References(frame), false), r1[1..], true)
  }

  // ----- one call ------------------------------------------------------------------------

  /** With a unit under way: the state after, the bytes behind it, the piece, and whether
      the packet is complete. */
  function Put(s: State, r: seq<byte>, isNew: bool, room: nat): (State, seq<byte>, Piece, bool)
    requires s.size <= |r|
  {
    if isNew && (s.fragmentation || s.size >= room) then
      var n := Min(s.size, room);
      (s.(size := s.size - n, fragmentation := true), r[n..], Part(!s.fragmentation, n == s.size, r[..n]), true)
    else if !isNew && s.size > room then (s, r, Nothing, true)
    else (s.(size := 0), r[s.size..], Whole(r[..s.size]), false)
  }

  function Call(s: State, r: seq<byte>, frame: Frame, isNew: bool, canWrite: UInt16): (State, seq<byte>, Piece, bool)
    requires s.size <= |r|
  {
    if canWrite < 3 then (s, r, Nothing, true)
    else if s.size != 0 then Put(s, r, isNew, canWrite - 2)
    else
      var unit := NextUnit(s, r, frame);
      NextUnitFits(s, r, frame);
      if !unit.2 then (unit.0, unit.1, Nothing, true) else Put(unit.0, unit.1, isNew, canWrite - 2)
  }

  lemma NextUnitFits(s: State, r: seq<byte>, frame: Frame)
    ensures NextUnit(s, r, frame).0.size <= |NextUnit(s, r, frame).1| <= |r|
    decreases |r|
  {
    if r != [] && Min(U32At(r), |Drop(r, 4)|) == 0 {
      NextUnitFits(s, Drop(r, 4), frame);
    }
  }

  /** The bytes of a piece: for a part the two bytes of a fragmentation unit, for a whole
      body its 16-bit size and, first in its packet, the byte of an aggregation. */
  function Encoded(piece: Piece, kind: byte, isNew: bool): seq<byte>
  {
    match piece
    case Nothing => []
    case Part(first, last, data) =>
      [kind / 0x20 % 4 * 0x20 + 28, (if first then 0x80 else 0) + (if last then 0x40 else 0) + kind % 0x20] + data
    case Whole(body) => (if isNew then [kind / 0x20 % 4 * 0x20 + 24] else []) + Be16(|body|) + body
  }

  /** No call writes more than it may. */
  lemma NeverTooMuch(s: State, r: seq<byte>, frame: Frame, isNew: bool, canWrite: UInt16)
    requires s.size <= |r|
    ensures var c := Call(s, r, frame, isNew, canWrite);
      |Encoded(c.2, c.0.kind, isNew)| <= canWrite
  {
    hide NextUnit, Be16;
    NextUnitFits(s, r, frame);
  }

  // ----- reassembling ---------------------------------------------------------------------------

  /** The bodies a receiver has put together, and the one it is in the middle of. */
  datatype Receiver = Receiver(bodies: seq<seq<byte>>, under: Option<seq<byte>>)

  /** The receiver after one more piece, if the marks of parts are consistent: a first
      one only between units, a last one only where the unit ends. */
  function Receive(v: Receiver, piece: Piece): Option<Receiver>
  {
    match piece
    case Nothing => Some(v)
    case Whole(body) => if v.under.None? then Some(Receiver(v.bodies + [body], None)) else None
    case Part(first, last, data) =>
      if first != v.under.None? then None
      else
        var all := (if first then [] else v.under.value) + data;
        Some(if last then Receiver(v.bodies + [all], None) else Receiver(v.bodies, Some(all)))
  }

  /** What the receiver has, the unit under way, and the units still to come. */
  function Everything(v: Receiver, s: State, r: seq<byte>): seq<seq<byte>>
    requires s.size <= |r|
  {
    if s.size == 0 then v.bodies + Bodies(r) else Halfway(v, s, r)
  }

  function Halfway(v: Receiver, s: State, r: seq<byte>): seq<seq<byte>>
    requires s.size <= |r|
  {
    v.bodies + ([(if v.under.Some? then v.under.value else []) + r[..s.size]] + Bodies(r[s.size..]))
  }

  /** Sender and receiver agree on whether a unit is in the middle. */
  predicate InStep(v: Receiver, s: State)
  {
    v.under.Some? <==> s.size != 0 && s.fragmentation
  }

  lemma {:induction false} NextUnitBodies(s: State, r: seq<byte>, frame: Frame)
    requires s.size == 0
    ensures var unit := NextUnit(s, r, frame);
      unit.0.size <= |unit.1|
      && (if unit.2 then !unit.0.fragmentation && Bodies(r) == [unit.1[..unit.0.size]] + Bodies(unit.1[unit.0.size..])
          else Bodies(r) == [] && unit.0.size == 0 && unit.1 == [])
    decreases |r|
  {
    hide Bodies;
    BodiesUnfold(r);
    if r != [] {
      var r1 := Drop(r, 4);
      var size := Min(U32At(r), |r1|);
      if size == 0 {
        NextUnitBodies(s, r1, frame);
      } else {
        assert Take(r1, U32At(r)) == r1[..size] && Drop(r1, U32At(r)) == r1[size..];
        assert r1[..size][1..] == r1[1..][..size - 1] && r1[1..][size - 1..] == r1[size..];
      }
    }
  }

  lemma BodiesUnfold(r: seq<byte>)
    ensures Bodies(r) == if r == [] then []
                         else if Take(Drop(r, 4), U32At(r)) == [] then Bodies(Drop(r, 4))
                         else [Take(Drop(r, 4), U32At(r))[1..]] + Bodies(Drop(Drop(r, 4), U32At(r)))
  {
    hide Take, Drop, U32At;
  }

  lemma Halves(r: seq<byte>, n: nat, size: nat)
    requires n <= size <= |r|
    ensures r[n..][size - n..] == r[size..]
    ensures r[..n] + r[n..][..size - n] == r[..size]
  {
  }

  /** A unit under way: whatever the call does with it, everything stays what it was. */
  lemma PutKeeps(v: Receiver, s: State, r: seq<byte>, isNew: bool, room: nat)
    requires s.size <= |r| && room > 0 && (v.under.Some? <==> s.fragmentation) && (s.fragmentation ==> isNew && s.size != 0)
    ensures var p := Put(s, r, isNew, room);
      var v' := Receive(v, p.2);
      v'.Some? && p.0.size <= |p.1| && InStep(v'.value, p.0) && Everything(v'.value, p.0, p.1) == Halfway(v, s, r)
      && (!p.3 ==> p.0.size == 0)
  {
    hide Bodies;
    var p := Put(s, r, isNew, room);
    var under := if v.under.Some? then v.under.value else [];
    var later := Bodies(r[s.size..]);
    if isNew && (s.fragmentation || s.size >= room) {
      var n := Min(s.size, room);
      Halves(r, n, s.size);
      Associative(under, r[..n], r[n..][..s.size - n]);
      Associative(v.bodies, [under + r[..s.size]], later);
    } else if !(!isNew && s.size > room) {
      assert [] + r[..s.size] == r[..s.size];
      Associative(v.bodies, [r[..s.size]], later);
    }
  }

  /** In step between calls: a unit partly sent is followed up in a new packet. */
  predicate Between(v: Receiver, s: State, r: seq<byte>, isNew: bool)
  {
    s.size <= |r| && InStep(v, s) && (s.size != 0 && s.fragmentation ==> isNew)
  }

  lemma CallKeeps(v: Receiver, s: State, r: seq<byte>, frame: Frame, isNew: bool, canWrite: UInt16)
    requires Between(v, s, r, isNew)
    ensures var c := Call(s, r, frame, isNew, canWrite);
      var v' := Receive(v, c.2);
      v'.Some? && Between(v'.value, c.0, c.1, c.3) && Everything(v'.value, c.0, c.1) == Everything(v, s, r)
  {
    hide Bodies, NextUnit, Put, Receive;
    ReceiveNothing(v);
    if canWrite >= 3 {
      if s.size != 0 {
        PutKeeps(v, s, r, isNew, canWrite - 2);
      } else {
        NextUnitBodies(s, r, frame);
        var unit := NextUnit(s, r, frame);
        if unit.2 {
          PutKeeps(v, unit.0, unit.1, isNew, canWrite - 2);
          assert [] + unit.1[..unit.0.size] == unit.1[..unit.0.size];
        } else {
          assert Bodies([]) == [] by {
            BodiesUnfold([]);
          }
        }
      }
    }
  }

  lemma ReceiveNothing(v: Receiver)
    ensures Receive(v, Nothing) == Some(v)
  {
  }

  // ----- many calls --------------------------------------------------------------------------------

  /** Calls with the given rooms, a new packet whenever the one before is complete: the
      pieces, and what is left. */
  function Run(s: State, r: seq<byte>, frame: Frame, isNew: bool, rooms: seq<UInt16>): (State, seq<byte>, seq<Piece>)
    requires s.size <= |r|
    decreases |rooms|
  {
    if rooms == [] then (s, r, [])
    else
      var c := Call(s, r, frame, isNew, rooms[0]);
      CallFits(s, r, frame, isNew, rooms[0]);
      var others := Run(c.0, c.1, frame, c.3, rooms[1..]);
      (others.0, others.1, [c.2] + others.2)
  }

  lemma CallFits(s: State, r: seq<byte>, frame: Frame, isNew: bool, canWrite: UInt16)
    requires s.size <= |r|
    ensures Call(s, r, frame, isNew, canWrite).0.size <= |Call(s, r, frame, isNew, canWrite).1| <= |r|
  {
    hide NextUnit;
    NextUnitFits(s, r, frame);
  }

  function ReceiveAll(v: Receiver, pieces: seq<Piece>): Option<Receiver>
    decreases |pieces|
  {
    if pieces == [] then Some(v)
    else if Receive(v, pieces[0]).None? then None
    else ReceiveAll(Receive(v, pieces[0]).value, pieces[1..])
  }

  lemma {:induction false} RunKeeps(v: Receiver, s: State, r: seq<byte>, frame: Frame, isNew: bool, rooms: seq<UInt16>)
    requires Between(v, s, r, isNew)
    ensures var run := Run(s, r, frame, isNew, rooms);
      var v' := ReceiveAll(v, run.2);
      v'.Some? && run.0.size <= |run.1| && InStep(v'.value, run.0)
      && Everything(v'.value, run.0, run.1) == Everything(v, s, r)
    decreases |rooms|
  {
    hide Call, Receive, Everything;
    if rooms != [] {
      CallKeeps(v, s, r, frame, isNew, rooms[0]);
      var c := Call(s, r, frame, isNew, rooms[0]);
      CallFits(s, r, frame, isNew, rooms[0]);
      RunKeeps(Receive(v, c.2).value, c.0, c.1, frame, c.3, rooms[1..]);
      assert ([c.2] + Run(c.0, c.1, frame, c.3, rooms[1..]).2)[1..] == Run(c.0, c.1, frame, c.3, rooms[1..]).2;
    }
  }

  /** How many more calls are needed at most: one for each byte, and one more to leave a
      packet that the next unit does not fit. */
  function Todo(r: seq<byte>, isNew: bool): nat
  {
    2 * |r| + if isNew then 0 else 1
  }

  lemma {:induction false} NextUnitReads(s: State, r: seq<byte>, frame: Frame)
    requires r != []
    ensures |NextUnit(s, r, frame).1| < |r|
    decreases |r|
  {
    hide U32At;
    var r1 := Drop(r, 4);
    if Min(U32At(r), |r1|) == 0 && r1 != [] {
      NextUnitReads(s, r1, frame);
    }
  }

  /** With room enough for a byte, a call brings the end nearer. */
  lemma CallAdvances(s: State, r: seq<byte>, frame: Frame, isNew: bool, canWrite: UInt16)
    requires s.size <= |r| && r != [] && canWrite >= 3
    ensures var c := Call(s, r, frame, isNew, canWrite);
      Todo(c.1, c.3) < Todo(r, isNew)
  {
    hide NextUnit;
    if s.size == 0 {
      NextUnitReads(s, r, frame);
      NextUnitFits(s, r, frame);
      NextUnitEnds(s, r, frame);
    }
  }

  lemma {:induction false} NextUnitEnds(s: State, r: seq<byte>, frame: Frame)
    ensures !NextUnit(s, r, frame).2 ==> NextUnit(s, r, frame).1 == [] && NextUnit(s, r, frame).0.size == 0
    decreases |r|
  {
    hide U32At;
    if r != [] && Min(U32At(r), |Drop(r, 4)|) == 0 {
      NextUnitEnds(s, Drop(r, 4), frame);
    }
  }

  /** Every call has room for a byte. */
  predicate Roomy(rooms: seq<UInt16>)
  {
    forall i :: 0 <= i < |rooms| ==> rooms[i] >= 3
  }

  /** Nothing is left after so many calls. */
  lemma {:induction false} RunEnds(s: State, r: seq<byte>, frame: Frame, isNew: bool, rooms: seq<UInt16>)
    requires s.size <= |r| && |rooms| >= Todo(r, isNew) && Roomy(rooms)
    ensures Run(s, r, frame, isNew, rooms).0.size == 0 && Run(s, r, frame, isNew, rooms).1 == []
    decreases |rooms|
  {
    hide Call;
    if rooms != [] {
      var c := Call(s, r, frame, isNew, rooms[0]);
      CallFits(s, r, frame, isNew, rooms[0]);
      if r != [] {
        CallAdvances(s, r, frame, isNew, rooms[0]);
        RunEnds(c.0, c.1, frame, c.3, rooms[1..]);
      } else {
        NothingLeft(s, frame, isNew, rooms);
      }
    }
  }

  lemma {:induction false} NothingLeft(s: State, frame: Frame, isNew: bool, rooms: seq<UInt16>)
    requires s.size == 0
    ensures Run(s, [], frame, isNew, rooms).0.size == 0 && Run(s, [], frame, isNew, rooms).1 == []
    decreases |rooms|
  {
    if rooms != [] {
      var c := Call(s, [], frame, isNew, rooms[0]);
      NothingLeft(c.0, frame, c.3, rooms[1..]);
    }
  }

  /** Any media packet, in any rooms: the marks of the parts always fit together, the
      bodies a receiver has are the first of the packet's, whole and in order, and
      once nothing is left they are all of them: after two calls for each byte at the
      latest, if each has room for one. */
  lemma BodiesArrive(s: State, packet: seq<byte>, frame: Frame, rooms: seq<UInt16>)
    requires s.size == 0
    ensures var run := Run(s, packet, frame, true, rooms);
      var v := ReceiveAll(Receiver([], None), run.2);
      v.Some? && v.value.bodies <= Bodies(packet)
      && (run.0.size == 0 && run.1 == [] ==> v.value == Receiver(Bodies(packet), None))
      && (|rooms| >= 2 * |packet| && Roomy(rooms) ==> run.0.size == 0 && run.1 == [])
  {
    hide Bodies, Run, ReceiveAll;
    var v := Receiver([], None);
    RunKeeps(v, s, packet, frame, true, rooms);
    if |rooms| >= 2 * |packet| && Roomy(rooms) {
      RunEnds(s, packet, frame, true, rooms);
    }
    assert [] + Bodies(packet) == Bodies(packet);
    BodiesUnfold([]);
    var run := Run(s, packet, frame, true, rooms);
    var v' := ReceiveAll(v, run.2).value;
    if run.0.size == 0 && run.1 == [] {
      assert v'.bodies + [] == v'.bodies;
    }
  }

  // ----- the object -----------------------------------------------------------------------------------

  class Profile {
    var size: UInt32
    var kind: byte
    var fragmentation: bool

    function Current(): State
      reads this
    {
      State(size, kind, fragmentation)
    }

    constructor ()
      ensures Current() == State(0, 0, false)
    {
      size, kind, fragmentation := 0, 0, false;
    }

    /** writeVideo for H264: `isNew` when nothing but the packet's header is written.
        Returns the bytes not read yet and whether the packet is complete. */
    method WriteVideo(frame: Frame, reader: seq<byte>, writer: BinaryWriter, isNew: bool, canWrite: UInt16)
      returns (rest: seq<byte>, flush: bool)
      requires size <= |reader|
      modifies this, writer
      ensures var c := Call(old(Current()), reader, frame, isNew, canWrite);
        Current() == c.0 && rest == c.1 && flush == c.3
        && writer.data == old(writer.data) + Encoded(c.2, c.0.kind, isNew)
    {
      hide Be16, NextUnit, References;
      rest := reader;
      assert writer.data + [] == writer.data;
      if canWrite < 3 {
        return rest, true;
      }
      var room := canWrite - 2;
      if size == 0 {
        var found;
        found, rest := FindUnit(frame, rest);
        NextUnitFits(old(Current()), reader, frame);
        if !found {
          return rest, true;
        }
      }
      rest, flush := WriteUnit(rest, writer, isNew, room);
    }

    method FindUnit(frame: Frame, reader: seq<byte>) returns (found: bool, rest: seq<byte>)
      requires size == 0
      modifies this
      ensures (Current(), rest, found) == NextUnit(old(Current()), reader, frame)
    {
      rest := reader;
      while true
        invariant size == 0 && Current() == old(Current()) && NextUnit(Current(), rest, frame) == NextUnit(old(Current()), reader, frame)
        decreases |rest|
      {
        if rest == [] {
          size := 0;
          return false, [];
        }
        var wanted := U32At(rest);
        rest := Drop(rest, 4);
        if Min(wanted, |rest|) != 0 {
          size := Min(wanted, |rest|) - 1;
          kind := rest[0] % 0x20 + References(frame);
          fragmentation := false;
          return true, rest[1..];
        }
      }
    }

    method WriteUnit(reader: seq<byte>, writer: BinaryWriter, isNew: bool, room: nat) returns (rest: seq<byte>, flush: bool)
      requires size <= |reader|
      modifies this, writer
      ensures var p := Put(old(Current()), reader, isNew, room);
        Current() == p.0 && rest == p.1 && flush == p.3 && writer.data == old(writer.data) + Encoded(p.2, p.0.kind, isNew)
    {
      hide Be16;
      rest := reader;
      assert writer.data + [] == writer.data;
      if isNew && (fragmentation || size >= room) {
        var n := Min(size, room);
        var head := [kind / 0x20 % 4 * 0x20 + 28,
                     (if fragmentation then 0 else 0x80) + (if size == n then 0x40 else 0) + kind % 0x20];
        writer.Write(head + rest[..n]);
        rest := rest[n..];
        size := size - n;
        fragmentation := true;
        return rest, true;
      }
      if !isNew && size > room {
        return rest, true;
      }
      WriteWhole(rest[..size], writer, isNew);
      rest := rest[size..];
      size := 0;
      return rest, false;
    }

    /** A whole body, first in its packet or behind others. */
    method WriteWhole(body: seq<byte>, writer: BinaryWriter, isNew: bool)
      modifies writer
      ensures writer.data == old(writer.data) + Encoded(Whole(body), kind, isNew)
    {
      hide Be16;
      ghost var before := writer.data;
      var mark: seq<byte> := if isNew then [kind / 0x20 % 4 * 0x20 + 24] else [];
      writer.Write(mark);
      writer.Write16(|body|);
      writer.Write(body);
      Associative(before, mark, Be16(|body|));
      Associative(before, mark + Be16(|body|), body);
    }
  }
}
