/** Packets of any units and records of any sets, as the standards lay them out. */
module VideoRecords {
  import opened Bytes
  import opened VideoConfig

  // ----- packets ---------------------------------------------------------------------------

  /** A unit: its kind with the bits around it, and what follows its first byte; or nothing. */
  datatype Unit = Nothing | Unit(kind: byte, high: byte, low: byte, body: seq<byte>)

  /** H.264 has the kind in the low five bits (section 7.3.1), H.265 in the six below the
      highest (section 7.3.1.2). */
  predicate IsUnit(hevc: bool, u: Unit)
  {
    u.Unit? ==>
      && |u.body| + 1 < U32
      && if hevc then u.high < 2 && u.kind < 0x40 && u.low < 2 else u.high < 8 && u.kind < 0x20
  }

  function UnitBytes(hevc: bool, u: Unit): (s: seq<byte>)
    requires IsUnit(hevc, u)
    ensures s == [] <==> u.Nothing?
  {
    if u.Nothing? then []
    else [if hevc then u.high * 0x80 + u.kind * 2 + u.low else u.high * 0x20 + u.kind] + u.body
  }

  predicate AreUnits(hevc: bool, units: seq<Unit>)
  {
    forall i :: 0 <= i < |units| ==> IsUnit(hevc, units[i])
  }

  function Packed(hevc: bool, units: seq<Unit>): seq<byte>
    requires AreUnits(hevc, units)
  {
    if units == [] then [] else Sized32(UnitBytes(hevc, units[0])) + Packed(hevc, units[1..])
  }

  /** The last unit of a kind, or what there was before. */
  function LastOf(hevc: bool, units: seq<Unit>, kind: byte, before: seq<byte>): seq<byte>
    requires AreUnits(hevc, units)
  {
    if units == [] then before
    else
      var u := units[|units| - 1];
      if u.Unit? && u.kind == kind then UnitBytes(hevc, u) else LastOf(hevc, units[..|units| - 1], kind, before)
  }

  lemma {:induction false} LastFront(hevc: bool, units: seq<Unit>, kind: byte, before: seq<byte>)
    requires AreUnits(hevc, units) && units != []
    ensures LastOf(hevc, units, kind, before)
      == LastOf(hevc, units[1..], kind, if units[0].Unit? && units[0].kind == kind then UnitBytes(hevc, units[0]) else before)
    decreases |units|
  {
    hide UnitBytes, IsUnit;
    if |units| > 1 {
      var init := units[..|units| - 1];
      LastFront(hevc, init, kind, before);
      assert units[1..][..|units| - 2] == init[1..];
    }
  }

  lemma UnitKind(hevc: bool, u: Unit)
    requires IsUnit(hevc, u) && u.Unit?
    ensures (if hevc then HevcType(UnitBytes(hevc, u)[0]) else AvcType(UnitBytes(hevc, u)[0])) == u.kind
  {
    if hevc {
      assert (u.high * 0x80 + u.kind * 2 + u.low) % 0x80 == u.kind * 2 + u.low;
    }
  }

  lemma OneCollected(hevc: bool, u: Unit, rest: seq<byte>, sets: Sets)
    requires IsUnit(hevc, u)
    ensures Collect(hevc, Sized32(UnitBytes(hevc, u)) + rest, sets)
      == Collect(hevc, rest, if u.Nothing? then sets else Classified(hevc, UnitBytes(hevc, u), sets))
  {
    hide Classified, Be32, U32At;
    var nal := UnitBytes(hevc, u);
    var r := Sized32(nal) + rest;
    assert r == Be32(|nal|) + (nal + rest);
    ReadBe32(|nal|, nal + rest);
    TakeAll(nal, rest);
    assert nal == [] ==> nal + rest == rest;
  }

  /** The last unit of each kind of parameter set is taken, whatever other units, empty ones
      among them, the packet holds. */
  lemma {:induction false} CollectsLast(hevc: bool, units: seq<Unit>, sets: Sets)
    requires AreUnits(hevc, units)
    ensures Collect(hevc, Packed(hevc, units), sets)
      == if hevc then Sets(LastOf(hevc, units, 32, sets.vps), LastOf(hevc, units, 33, sets.sps), LastOf(hevc, units, 34, sets.pps))
         else Sets(sets.vps, LastOf(hevc, units, 7, sets.sps), LastOf(hevc, units, 8, sets.pps))
    decreases |units|
  {
    hide Collect, Sized32, UnitBytes, IsUnit, AvcType, HevcType;
    if units == [] {
      NothingCollected(hevc, sets);
    } else {
      var u := units[0];
      OneCollected(hevc, u, Packed(hevc, units[1..]), sets);
      if u.Unit? {
        UnitKind(hevc, u);
      }
      forall kind, before
        ensures LastOf(hevc, units, kind, before)
          == LastOf(hevc, units[1..], kind, if u.Unit? && u.kind == kind then UnitBytes(hevc, u) else before)
      {
        LastFront(hevc, units, kind, before);
      }
      hide LastOf;
      CollectsLast(hevc, units[1..], if u.Nothing? then sets else Classified(hevc, UnitBytes(hevc, u), sets));
    }
  }

  lemma NothingCollected(hevc: bool, sets: Sets)
    ensures Collect(hevc, [], sets) == sets
  {
  }

  // ----- records -----------------------------------------------------------------------------

  /** The record that is written: version 1, then profile, compatibility and level as the
      set has them, sizes of units in four bytes, and one set of each kind (section 5.3.3.1
      of ISO/IEC 14496-15). */
  lemma AvcRecordHead(sps: seq<byte>, pps: seq<byte>)
    requires |sps| >= 4
    ensures var r := AvcRecord(sps, pps);
      r[..5] == [1] + sps[1..4] + [0xFF] && r[5] == 0xE1 && r[6..8] == Be16(|sps|) && r[8..8 + |sps|] == sps
      && r[8 + |sps|] == 1 && r[9 + |sps|..11 + |sps|] == Be16(|pps|) && r[11 + |sps|..] == pps
  {
    hide Be16;
    assert (sps + Fill(4, 0))[1..4] == sps[1..4];
    var r := AvcRecord(sps, pps);
    assert r == [1] + sps[1..4] + [0xFF, 0xE1] + Be16(|sps|) + sps + [1] + Be16(|pps|) + pps;
  }

  /** For H.265: version 1, sizes of units in four bytes, and three arrays of one unit each,
      of the kinds of the sets (section 8.3.3.1 of ISO/IEC 14496-15). */
  lemma HevcRecordHead(vps: seq<byte>, sps: seq<byte>, pps: seq<byte>)
    ensures var r := HevcRecord(vps, sps, pps);
      && r[0] == 1 && r[21] % 4 == 3 && r[22] == 3
      && r[23..] == [32] + Be16(1) + Sized16(vps) + ([33] + Be16(1) + Sized16(sps) + ([34] + Be16(1) + Sized16(pps)))
  {
    hide Be16, Sized16;
  }

  predicate Fits(sets: seq<seq<byte>>)
  {
    forall i :: 0 <= i < |sets| ==> |sets[i]| < 0x1_0000
  }

  function All16(sets: seq<seq<byte>>): seq<byte>
  {
    if sets == [] then [] else Sized16(sets[0]) + All16(sets[1..])
  }

  function All32(sets: seq<seq<byte>>): seq<byte>
  {
    if sets == [] then [] else Sized32(sets[0]) + All32(sets[1..])
  }

  lemma UnitsOne(r: seq<byte>, count: byte, isPps: bool)
    requires |r| >= 2 && count > 0
    ensures var nal, rest := Take(Drop(r, 2), U16(r)), Drop(Drop(r, 2), U16(r));
      AvcUnits(r, count, isPps) == Sized32(nal)
        + if count > 1 then AvcUnits(rest, count - 1, isPps)
          else if isPps then []
          else AvcUnits(Drop(rest, 1), U8(rest), true)
  {
    hide Sized32, Take, Drop, U16, U8;
  }

  lemma UnitsNone(r: seq<byte>, isPps: bool)
    ensures AvcUnits(r, 0, isPps) == []
  {
  }

  lemma {:induction false} SetsRead(sets: seq<seq<byte>>, rest: seq<byte>, isPps: bool)
    requires Fits(sets) && 0 < |sets| < 256
    ensures AvcUnits(All16(sets) + rest, |sets|, isPps)
      == All32(sets) + if isPps then [] else AvcUnits(Drop(rest, 1), U8(rest), true)
    decreases |sets|
  {
    hide Sized32, Sized16, Take, Drop, U16, U8, AvcUnits;
    var later := All16(sets[1..]) + rest;
    assert All16(sets) + rest == Sized16(sets[0]) + later;
    SizedReads(sets[0], later);
    UnitsOne(Sized16(sets[0]) + later, |sets|, isPps);
    if |sets| > 1 {
      SetsRead(sets[1..], rest, isPps);
      Rejoin(Sized32(sets[0]), All32(sets[1..]), if isPps then [] else AvcUnits(Drop(rest, 1), U8(rest), true));
    } else {
      assert sets[1..] == [] && [] + rest == rest;
      assert Sized32(sets[0]) + [] == Sized32(sets[0]);
    }
  }

  /** Any record with sets of both kinds gives them all in order, and nothing behind them. */
  lemma AvcRecordReads(head: seq<byte>, spss: seq<seq<byte>>, ppss: seq<seq<byte>>, rest: seq<byte>)
    requires |head| == 5 && 0 < |spss| < 0x20 && |ppss| < 256 && Fits(spss) && Fits(ppss)
    ensures AvcRead(head + [0xE0 + |spss|] + (All16(spss) + ([|ppss|] + (All16(ppss) + rest)))) == All32(spss) + All32(ppss)
  {
    hide *;
    var later := All16(ppss) + rest;
    var tail := [|ppss| as byte] + later;
    Front(head, |spss|, All16(spss) + tail);
    RecordFront(head + [0xE0 + |spss|] + (All16(spss) + tail), |spss|);
    SetsRead(spss, tail, false);
    TailFront(|ppss|, later);
    if ppss == [] {
      UnitsNone(later, true);
      NoSets();
    } else {
      SetsRead(ppss, rest, true);
      assert All32(ppss) + [] == All32(ppss);
    }
  }

  lemma Front(head: seq<byte>, n: byte, more: seq<byte>)
    requires |head| == 5 && n < 0x20
    ensures var data := head + [0xE0 + n] + more;
      U8(Drop(data, 5)) == 0xE0 + n && Drop(data, 6) == more
  {
  }

  lemma RecordFront(data: seq<byte>, n: byte)
    requires n < 0x20 && U8(Drop(data, 5)) == 0xE0 + n
    ensures AvcRead(data) == AvcUnits(Drop(data, 6), n, false)
  {
    hide AvcUnits, Drop, U8;
  }

  lemma TailFront(n: byte, more: seq<byte>)
    ensures Drop([n] + more, 1) == more && U8([n] + more) == n
  {
  }

  lemma NoSets()
    ensures All32([]) == []
  {
  }
}
