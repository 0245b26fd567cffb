/** AVC and HEVC configuration records: parameter sets behind 32-bit sizes on one
    side, avcC and hvcC records (ISO/IEC 14496-15) on the other. */
module VideoConfig {
  import opened Bytes

  /** A size and that many bytes. */
  function Sized32(nal: seq<byte>): (s: seq<byte>)
    ensures |s| == 4 + |nal|
  {
    Be32(|nal|) + nal
  }

  function Sized16(nal: seq<byte>): (s: seq<byte>)
    ensures |s| == 2 + |nal|
  {
    Be16(|nal|) + nal
  }

  // ----- picking the parameter sets out of a packet -------------------------------------

  datatype Sets = Sets(vps: seq<byte>, sps: seq<byte>, pps: seq<byte>)

  const NO_SETS := Sets([], [], [])

  function AvcType(b: byte): byte
  {
    b % 0x20
  }

  function HevcType(b: byte): byte
  {
    b % 0x80 / 2
  }

  function Classified(hevc: bool, nal: seq<byte>, sets: Sets): Sets
    requires nal != []
  {
    if hevc then
      if HevcType(nal[0]) == 32 then sets.(vps := nal)
      else if HevcType(nal[0]) == 33 then sets.(sps := nal)
      else if HevcType(nal[0]) == 34 then sets.(pps := nal)
      else sets
    else if AvcType(nal[0]) == 7 then sets.(sps := nal)
    else if AvcType(nal[0]) == 8 then sets.(pps := nal)
    else sets
  }

  /** The last set of each kind, empty units passed over. */
  function Collect(hevc: bool, r: seq<byte>, sets: Sets): Sets
    decreases |r|
  {
    if r == [] then sets
    else
      var length := U32At(r);
      var nal := Take(Drop(r, 4), length);
      if nal == [] then Collect(hevc, Drop(r, 4), sets)
      else Collect(hevc, Drop(Drop(r, 4), length), Classified(hevc, nal, sets))
  }

  /** ParseVideoConfig: the picture parameter set is not mandatory. */
  predicate Complete(hevc: bool, sets: Sets)
  {
    sets.sps != [] && (hevc ==> sets.vps != [])
  }

  method ParseVideoConfig(hevc: bool, packet: seq<byte>) returns (ok: bool, sets: Sets)
    ensures sets == Collect(hevc, packet, NO_SETS)
    ensures ok == Complete(hevc, sets)
  {
    hide Classified;
    var r := packet;
    sets := NO_SETS;
    while r != []
      invariant Collect(hevc, r, sets) == Collect(hevc, packet, NO_SETS)
      decreases |r|
    {
      var length: nat := U32At(r);
      r := Drop(r, 4);
      if length > |r| {
        length := |r|;
      }
      if length > 0 {
        sets := Classified(hevc, r[..length], sets);
        r := Drop(r, length);
      }
    }
    ok := Complete(hevc, sets);
  }

  // ----- avcC ------------------------------------------------------------------------------

  /** The three bytes behind the first of an SPS (a shorter one is filled up here). */
  function Profile(sps: seq<byte>): (s: seq<byte>)
    ensures |s| == 3
  {
    (sps + Fill(4, 0))[1..4]
  }

  function AvcRecord(sps: seq<byte>, pps: seq<byte>): (s: seq<byte>)
    ensures |s| == 11 + |sps| + |pps|
  {
    [0x01] + Profile(sps) + [0xFF, 0xE1] + (Sized16(sps) + ([0x01] + Sized16(pps)))
  }

  /** The units of an avcC record: `count` of this kind, then those of the next. */
  function AvcUnits(r: seq<byte>, count: byte, isPps: bool): seq<byte>
    decreases |r|
  {
    if |r| < 2 || count == 0 then []
    else
      var nal := Take(Drop(r, 2), U16(r));
      var rest := Drop(Drop(r, 2), U16(r));
      Sized32(nal)
      + if count > 1 then AvcUnits(rest, count - 1, isPps)
        else if isPps then []
        else AvcUnits(Drop(rest, 1), U8(rest), true)
  }

  function AvcRead(data: seq<byte>): seq<byte>
  {
    AvcUnits(Drop(data, 6), U8(Drop(data, 5)) % 0x20, false)
  }

  method ReadAvcConfig(data: seq<byte>) returns (buffer: seq<byte>)
    ensures buffer == AvcRead(data)
  {
    hide Sized32, Take;
    var r := Drop(data, 5);
    var count: byte := U8(r) % 0x20;
    r := Drop(r, 1);
    DropDrop(data, 5, 1);
    var isPps := false;
    buffer := [];
    ghost var total := AvcUnits(r, count, isPps);
    assert buffer + total == total;
    while |r| >= 2 && count > 0
      invariant buffer + AvcUnits(r, count, isPps) == total
      decreases |r|
    {
      count := count - 1;
      var nal := Take(Drop(r, 2), U16(r));
      Rejoin(buffer, Sized32(nal), AvcUnits(r, count + 1, isPps)[|Sized32(nal)|..]);
      buffer := buffer + Sized32(nal);
      r := Drop(Drop(r, 2), U16(r));
      if count == 0 {
        if isPps {
          assert buffer + [] == buffer;
          return;
        }
        count := U8(r);
        r := Drop(r, 1);
        isPps := true;
      }
    }
    assert buffer + [] == buffer;
  }

  lemma Rejoin(a: seq<byte>, b: seq<byte>, c: seq<byte>)
    ensures a + (b + c) == a + b + c
  {
  }

  lemma TakeAll(nal: seq<byte>, rest: seq<byte>)
    ensures Take(nal + rest, |nal|) == nal && Drop(nal + rest, |nal|) == rest
  {
  }

  lemma SizedReads(nal: seq<byte>, rest: seq<byte>)
    requires |nal| < 0x1_0000
    ensures var r := Sized16(nal) + rest;
      |r| >= 2 && Take(Drop(r, 2), U16(r)) == nal && Drop(Drop(r, 2), U16(r)) == rest
  {
    hide Take, Drop, U16, Be16;
    assert Sized16(nal) + rest == Be16(|nal|) + (nal + rest);
    ReadBe16(|nal|, nal + rest);
    TakeAll(nal, rest);
  }

  lemma AvcHead(sps: seq<byte>, pps: seq<byte>)
    ensures U8(Drop(AvcRecord(sps, pps), 5)) == 0xE1
    ensures Drop(AvcRecord(sps, pps), 6) == Sized16(sps) + ([0x01] + Sized16(pps))
  {
    hide Profile;
    var head := [0x01] + Profile(sps) + [0xFF, 0xE1];
    var r := Sized16(sps) + ([0x01] + Sized16(pps));
    assert AvcRecord(sps, pps) == head + r;
    assert Drop(head + r, 6) == r;
    assert Drop(head + r, 5)[0] == head[5];
  }

  /** Both sets come out of the record as they went in, while their sizes fit. */
  lemma AvcReads(sps: seq<byte>, pps: seq<byte>)
    requires |sps| < 0x1_0000 && |pps| < 0x1_0000
    ensures AvcRead(AvcRecord(sps, pps)) == Sized32(sps) + Sized32(pps)
  {
    hide Sized32, Sized16, Take, AvcRecord, AvcRead;
    AvcRest(sps, pps);
    SizedReads(pps, []);
  }

  lemma SizeCut(nal: seq<byte>, rest: seq<byte>)
    requires 0x1_0000 <= |nal| < U32
    ensures var r := Sized16(nal) + rest;
      |r| >= 2 && Sized32(Take(Drop(r, 2), U16(r)))[..4] != Be32(|nal|)
  {
    var r := Sized16(nal) + rest;
    hide Be32;
    assert U16(r) < 0x1_0000;
    var cut := Take(Drop(r, 2), U16(r));
    assert Sized32(cut)[..4] == Be32(|cut|);
    ReadBe32(|cut|, []);
    ReadBe32(|nal|, []);
    assert Be32(|cut|) + [] == Be32(|cut|) && Be32(|nal|) + [] == Be32(|nal|);
  }

  /** The first unit that comes out has the size it then says. */
  lemma AvcFirst(sps: seq<byte>, pps: seq<byte>)
    requires 0x1_0000 <= |sps| < U32
    ensures AvcRead(AvcRecord(sps, pps)) != Sized32(sps) + Sized32(pps)
  {
    hide Sized16, Take, Drop, U16, AvcRecord, AvcRead, AvcUnits, Be32;
    var r := Sized16(sps) + ([0x01] + Sized16(pps));
    AvcStart(sps, pps);
    SizeCut(sps, [0x01] + Sized16(pps));
    AvcOne(r);
    var first := Sized32(Take(Drop(r, 2), U16(r)));
    assert AvcRead(AvcRecord(sps, pps))[..4] == first[..4];
    assert (Sized32(sps) + Sized32(pps))[..4] == Be32(|sps|);
  }

  /** The second unit, whatever its size. */
  lemma AvcRest(sps: seq<byte>, pps: seq<byte>)
    requires |sps| < 0x1_0000
    ensures var r := Sized16(pps) + [];
      |r| >= 2 && AvcRead(AvcRecord(sps, pps)) == Sized32(sps) + Sized32(Take(Drop(r, 2), U16(r)))
  {
    hide Sized16, Sized32, Take, AvcRecord, AvcRead, AvcUnits, U16;
    var r2 := [0x01] + Sized16(pps);
    var r3 := Sized16(pps) + [];
    AvcStart(sps, pps);
    SizedReads(sps, r2);
    assert Drop(r2, 1) == r3 && U8(r2) == 1;
    hide Drop, U8;
    AvcOne(Sized16(sps) + r2);
    SizedRoom(pps, []);
    AvcLast(r3);
  }

  lemma SizedRoom(nal: seq<byte>, rest: seq<byte>)
    ensures |Sized16(nal) + rest| >= 2
  {
  }

  lemma AvcStart(sps: seq<byte>, pps: seq<byte>)
    ensures AvcRead(AvcRecord(sps, pps)) == AvcUnits(Sized16(sps) + ([0x01] + Sized16(pps)), 1, false)
  {
    hide Sized16, AvcRecord, AvcUnits, Drop, U8;
    AvcHead(sps, pps);
  }

  lemma AvcLast(r: seq<byte>)
    requires |r| >= 2
    ensures AvcUnits(r, 1, true) == Sized32(Take(Drop(r, 2), U16(r)))
  {
    hide Sized32, Take, Drop, U16;
    var nal := Take(Drop(r, 2), U16(r));
    assert Sized32(nal) + [] == Sized32(nal);
  }

  lemma AvcOne(r: seq<byte>)
    requires |r| >= 2
    ensures var rest := Drop(Drop(r, 2), U16(r));
      AvcUnits(r, 1, false) == Sized32(Take(Drop(r, 2), U16(r))) + AvcUnits(Drop(rest, 1), U8(rest), true)
  {
    hide Sized32, Take;
  }

  lemma Prefixed(a: seq<byte>, b: seq<byte>, c: seq<byte>)
    requires a + b == a + c
    ensures b == c
  {
    assert b == (a + b)[|a|..] && c == (a + c)[|a|..];
  }

  lemma AvcSecond(sps: seq<byte>, pps: seq<byte>)
    requires |sps| < 0x1_0000 <= |pps| < U32
    ensures AvcRead(AvcRecord(sps, pps)) != Sized32(sps) + Sized32(pps)
  {
    hide Sized16, Sized32, Take, AvcRecord, AvcRead;
    var r := Sized16(pps) + [];
    AvcRest(sps, pps);
    SizeCut(pps, []);
    SizeFirst(pps);
    var second := Sized32(Take(Drop(r, 2), U16(r)));
    if Sized32(sps) + second == Sized32(sps) + Sized32(pps) {
      Prefixed(Sized32(sps), second, Sized32(pps));
    }
  }

  lemma SizeFirst(nal: seq<byte>)
    ensures Sized32(nal)[..4] == Be32(|nal|)
  {
    hide Be32;
  }

  /** The record holds 16-bit sizes: it keeps the sets exactly when they fit. */
  lemma AvcReadsExactly(sps: seq<byte>, pps: seq<byte>)
    requires |sps| < U32 && |pps| < U32
    ensures AvcRead(AvcRecord(sps, pps)) == Sized32(sps) + Sized32(pps) <==> |sps| < 0x1_0000 && |pps| < 0x1_0000
  {
    hide AvcRead, AvcRecord, Sized32;
    if |sps| >= 0x1_0000 {
      AvcFirst(sps, pps);
    } else if |pps| >= 0x1_0000 {
      AvcSecond(sps, pps);
    } else {
      AvcReads(sps, pps);
    }
  }

  // ----- hvcC ------------------------------------------------------------------------------

  const HVCC: seq<byte> :=
    [0x01, 0x01, 0x60, 0, 0, 0, 0x90, 0, 0, 0, 0, 0, 0x3C, 0xF0, 0, 0xFC, 0xFD, 0xF8, 0xF8, 0, 0, 0x0F]

  /** An array of one unit. */
  function HevcArray(kind: byte, nal: seq<byte>): (s: seq<byte>)
    ensures |s| == 5 + |nal|
  {
    [kind] + Be16(1) + Sized16(nal)
  }

  function HevcRecord(vps: seq<byte>, sps: seq<byte>, pps: seq<byte>): (s: seq<byte>)
    ensures |s| == 38 + |vps| + |sps| + |pps|
  {
    HVCC + [3] + (HevcArray(0x20, vps) + (HevcArray(0x21, sps) + HevcArray(0x22, pps)))
  }

  /** `n` units one after the other (a unit that says more than there is gives what
      there is), and what follows them. */
  function HevcUnits(r: seq<byte>, n: nat): (x: (seq<byte>, seq<byte>))
    ensures |x.1| <= |r|
    decreases n
  {
    if n == 0 then ([], r)
    else
      var rest := HevcUnits(Drop(Drop(r, 2), U16(r)), n - 1);
      (Take(Drop(r, 2), U16(r)) + rest.0, rest.1)
  }

  /** Every array becomes one sized unit; a foreign type ends it, as does the array
      of picture parameter sets. */
  function HevcArrays(r: seq<byte>, count: byte): seq<byte>
    decreases |r|
  {
    if |r| < 3 || count == 0 then []
    else
      var kind := r[0] % 0x40;
      var units := HevcUnits(Drop(r, 3), U16(Drop(r, 1)));
      if kind != 0x20 && kind != 0x21 && kind != 0x22 then Fill(4, 0)
      else Sized32(units.0) + if kind == 0x22 then [] else HevcArrays(units.1, count - 1)
  }

  function HevcRead(data: seq<byte>): seq<byte>
  {
    HevcArrays(Drop(data, 23), U8(Drop(data, 22)))
  }

  lemma ArraysUnfold(r: seq<byte>, count: byte)
    requires |r| >= 3 && count > 0
    ensures var kind := r[0] % 0x40;
      var units := HevcUnits(Drop(r, 3), U16(Drop(r, 1)));
      HevcArrays(r, count) == if kind != 0x20 && kind != 0x21 && kind != 0x22 then Fill(4, 0)
                              else Sized32(units.0) + if kind == 0x22 then [] else HevcArrays(units.1, count - 1)
  {
    hide Sized32, HevcUnits;
  }

  lemma ArraysEnd(r: seq<byte>, count: byte)
    requires |r| < 3 || count == 0
    ensures HevcArrays(r, count) == []
  {
  }

  method ReadHevcConfig(data: seq<byte>) returns (buffer: seq<byte>)
    ensures buffer == HevcRead(data)
  {
    hide Sized32, HevcUnits, Take, HevcArrays;
    var r := Drop(data, 22);
    var count: byte := U8(r);
    r := Drop(r, 1);
    DropDrop(data, 22, 1);
    buffer := [];
    ghost var total := HevcArrays(r, count);
    assert buffer + total == total;
    while |r| >= 3 && count > 0
      invariant buffer + HevcArrays(r, count) == total
      decreases |r|
    {
      ArraysUnfold(r, count);
      var kind := r[0] % 0x40;
      var nalus := U16(Drop(r, 1));
      r := Drop(r, 3);
      if kind != 0x20 && kind != 0x21 && kind != 0x22 {
        return buffer + Fill(4, 0);
      }
      var content;
      content, r := ReadUnits(r, nalus);
      Rejoin(buffer, Sized32(content), if kind == 0x22 then [] else HevcArrays(r, count - 1));
      buffer := buffer + Sized32(content);
      if kind == 0x22 {
        assert buffer + [] == buffer;
        return;
      }
      count := count - 1;
    }
    ArraysEnd(r, count);
    assert buffer + [] == buffer;
  }

  method ReadUnits(data: seq<byte>, nalus: UInt16) returns (content: seq<byte>, rest: seq<byte>)
    ensures (content, rest) == HevcUnits(data, nalus)
    ensures |rest| <= |data|
  {
    hide Take, Drop, U16, HevcUnits;
    content, rest := [], data;
    ghost var total := HevcUnits(data, nalus);
    assert content + total.0 == total.0;
    for i := 0 to nalus
      invariant |rest| <= |data|
      invariant content + HevcUnits(rest, nalus - i).0 == total.0
      invariant HevcUnits(rest, nalus - i).1 == total.1
    {
      var size := U16(rest);
      UnitsUnfold(rest, nalus - i);
      ghost var later := HevcUnits(Drop(Drop(rest, 2), size), nalus - i - 1).0;
      Rejoin(content, Take(Drop(rest, 2), size), later);
      content := content + Take(Drop(rest, 2), size);
      rest := Drop(Drop(rest, 2), size);
    }
    UnitsUnfold(rest, 0);
    assert content + [] == content;
  }

  lemma UnitsUnfold(r: seq<byte>, n: nat)
    ensures |Drop(Drop(r, 2), U16(r))| <= |r|
    ensures n == 0 ==> HevcUnits(r, n) == ([], r)
    ensures n > 0 ==>
      var others := HevcUnits(Drop(Drop(r, 2), U16(r)), n - 1);
      HevcUnits(r, n) == (Take(Drop(r, 2), U16(r)) + others.0, others.1)
  {
    hide Take;
  }

  lemma UnitReads(nal: seq<byte>, rest: seq<byte>)
    requires |nal| < 0x1_0000
    ensures HevcUnits(Sized16(nal) + rest, 1) == (nal, rest)
  {
    hide Take, Sized16;
    SizedReads(nal, rest);
    assert HevcUnits(rest, 0) == ([], rest);
    assert nal + [] == nal;
  }

  lemma ArrayReads(kind: byte, nal: seq<byte>, rest: seq<byte>)
    requires kind in {0x20, 0x21, 0x22} && |nal| < 0x1_0000
    ensures var r := HevcArray(kind, nal) + rest;
      |r| >= 3 && r[0] % 0x40 == kind && U16(Drop(r, 1)) == 1 && HevcUnits(Drop(r, 3), 1) == (nal, rest)
  {
    hide U16, Be16, HevcUnits, Sized16;
    var body := Sized16(nal) + rest;
    var r := [kind] + (Be16(1) + body);
    assert HevcArray(kind, nal) + rest == r;
    DropAppend([kind], Be16(1) + body);
    ReadBe16(1, body);
    DropDrop(r, 1, 2);
    UnitReads(nal, rest);
  }

  lemma HevcHead(r: seq<byte>)
    ensures U8(Drop(HVCC + [3] + r, 22)) == 3 && Drop(HVCC + [3] + r, 23) == r
  {
    var head := HVCC + [3];
    assert Drop(head + r, 23) == r;
    assert Drop(head + r, 22)[0] == head[22];
  }

  lemma HevcReads(vps: seq<byte>, sps: seq<byte>, pps: seq<byte>)
    requires |vps| < 0x1_0000 && |sps| < 0x1_0000 && |pps| < 0x1_0000
    ensures HevcRead(HevcRecord(vps, sps, pps)) == Sized32(vps) + (Sized32(sps) + Sized32(pps))
  {
    hide Sized32, HevcArray, HevcUnits;
    var r3 := HevcArray(0x22, pps);
    var r2 := HevcArray(0x21, sps) + r3;
    HevcHead(HevcArray(0x20, vps) + r2);
    ArrayReads(0x20, vps, r2);
    ArrayReads(0x21, sps, r3);
    assert r3 + [] == r3;
    ArrayReads(0x22, pps, []);
    assert HevcArrays(r3, 1) == Sized32(pps) + [];
    assert Sized32(pps) + [] == Sized32(pps);
    assert HevcArrays(r2, 2) == Sized32(sps) + HevcArrays(r3, 1);
  }

  /** An array of one unit becomes one sized unit, of the size that its 16 bits say. */
  lemma ArrayCut(kind: byte, nal: seq<byte>, rest: seq<byte>, count: byte)
    requires kind in {0x20, 0x21, 0x22} && 0x1_0000 <= |nal| < U32 && count > 0
    ensures var read := HevcArrays(HevcArray(kind, nal) + rest, count);
      |read| >= 4 && read[..4] != Be32(|nal|)
  {
    hide U16, Be16, HevcUnits, Sized16, Be32, HevcArrays;
    var body := Sized16(nal) + rest;
    var r := [kind] + (Be16(1) + body);
    assert HevcArray(kind, nal) + rest == r;
    DropAppend([kind], Be16(1) + body);
    ReadBe16(1, body);
    DropDrop(r, 1, 2);
    ArraysUnfold(r, count);
    var units := HevcUnits(body, 1);
    OneUnit(body);
    SizeFirst(units.0);
    assert HevcArrays(r, count)[..4] == Sized32(units.0)[..4];
    ReadBe32(|units.0|, []);
    ReadBe32(|nal|, []);
    assert Be32(|units.0|) + [] == Be32(|units.0|) && Be32(|nal|) + [] == Be32(|nal|);
  }

  lemma OneUnit(r: seq<byte>)
    ensures |HevcUnits(r, 1).0| < 0x1_0000
  {
    var x := HevcUnits(Drop(Drop(r, 2), U16(r)), 0);
    assert HevcUnits(r, 1).0 == Take(Drop(r, 2), U16(r)) + x.0;
  }

  lemma HevcAfter(kind: byte, nal: seq<byte>, rest: seq<byte>, count: byte)
    requires kind in {0x20, 0x21} && |nal| < 0x1_0000 && count > 0
    ensures HevcArrays(HevcArray(kind, nal) + rest, count) == Sized32(nal) + HevcArrays(rest, count - 1)
  {
    hide HevcArrays, HevcArray, HevcUnits, Sized32;
    ArrayReads(kind, nal, rest);
    ArraysUnfold(HevcArray(kind, nal) + rest, count);
  }

  /** The same exact condition for hvcC. */
  lemma HevcReadsExactly(vps: seq<byte>, sps: seq<byte>, pps: seq<byte>)
    requires |vps| < U32 && |sps| < U32 && |pps| < U32
    ensures HevcRead(HevcRecord(vps, sps, pps)) == Sized32(vps) + (Sized32(sps) + Sized32(pps))
      <==> |vps| < 0x1_0000 && |sps| < 0x1_0000 && |pps| < 0x1_0000
  {
    hide Sized32, HevcArray, HevcArrays, HevcUnits, Be32;
    var r3 := HevcArray(0x22, pps);
    var r2 := HevcArray(0x21, sps) + r3;
    HevcHead(HevcArray(0x20, vps) + r2);
    var expected2, expected3 := Sized32(sps) + Sized32(pps), Sized32(pps);
    SizeAhead(vps, expected2);
    SizeAhead(sps, expected3);
    SizeAhead(pps, []);
    assert r3 + [] == r3 && expected3 + [] == expected3;
    if |vps| >= 0x1_0000 {
      ArrayCut(0x20, vps, r2, 3);
    } else {
      HevcAfter(0x20, vps, r2, 3);
      if |sps| >= 0x1_0000 {
        ArrayCut(0x21, sps, r3, 2);
        PrefixedBoth(Sized32(vps), HevcArrays(r2, 2), expected2);
      } else {
        HevcAfter(0x21, sps, r3, 2);
        if |pps| >= 0x1_0000 {
          ArrayCut(0x22, pps, [], 1);
          PrefixedBoth(Sized32(sps), HevcArrays(r3, 1), expected3);
          PrefixedBoth(Sized32(vps), HevcArrays(r2, 2), expected2);
        } else {
          HevcReads(vps, sps, pps);
        }
      }
    }
  }

  lemma SizeAhead(nal: seq<byte>, rest: seq<byte>)
    ensures (Sized32(nal) + rest)[..4] == Be32(|nal|)
  {
    hide Be32;
  }

  lemma PrefixedBoth(a: seq<byte>, b: seq<byte>, c: seq<byte>)
    ensures a + b == a + c <==> b == c
  {
    if a + b == a + c {
      Prefixed(a, b, c);
    }
  }

  // ----- from packet to record and back -----------------------------------------------------------

  /** What was collected is of its kind. */
  predicate WellTyped(hevc: bool, sets: Sets)
  {
    if hevc then
      (sets.vps != [] ==> HevcType(sets.vps[0]) == 32) && (sets.sps != [] ==> HevcType(sets.sps[0]) == 33)
      && (sets.pps != [] ==> HevcType(sets.pps[0]) == 34)
    else sets.vps == [] && (sets.sps != [] ==> AvcType(sets.sps[0]) == 7) && (sets.pps != [] ==> AvcType(sets.pps[0]) == 8)
  }

  lemma {:induction false} CollectTyped(hevc: bool, r: seq<byte>, sets: Sets)
    requires WellTyped(hevc, sets)
    ensures WellTyped(hevc, Collect(hevc, r, sets))
    decreases |r|
  {
    hide AvcType, HevcType, Take;
    if r != [] {
      var length := U32At(r);
      var nal := Take(Drop(r, 4), length);
      if nal == [] {
        CollectTyped(hevc, Drop(r, 4), sets);
      } else {
        CollectTyped(hevc, Drop(Drop(r, 4), length), Classified(hevc, nal, sets));
      }
    }
  }

  lemma CollectOne(hevc: bool, nal: seq<byte>, rest: seq<byte>, sets: Sets)
    requires |nal| < U32
    ensures Collect(hevc, Sized32(nal) + rest, sets)
      == Collect(hevc, rest, if nal == [] then sets else Classified(hevc, nal, sets))
  {
    hide Take, Classified, Be32, U32At, Drop;
    var r := Sized32(nal) + rest;
    assert r == Be32(|nal|) + (nal + rest);
    ReadBe32(|nal|, nal + rest);
    TakeAll(nal, rest);
    if nal == [] {
      assert [] + rest == rest;
    }
  }

  lemma CollectNone(hevc: bool, sets: Sets)
    ensures Collect(hevc, [], sets) == sets
  {
  }

  /** What a reader makes of the sets' record. */
  function Repacked(hevc: bool, sets: Sets): seq<byte>
  {
    if hevc then Sized32(sets.vps) + (Sized32(sets.sps) + Sized32(sets.pps)) else Sized32(sets.sps) + Sized32(sets.pps)
  }

  function Record(hevc: bool, sets: Sets): seq<byte>
  {
    if hevc then HevcRecord(sets.vps, sets.sps, sets.pps) else AvcRecord(sets.sps, sets.pps)
  }

  function ReadRecord(hevc: bool, data: seq<byte>): seq<byte>
  {
    if hevc then HevcRead(data) else AvcRead(data)
  }

  predicate Fit(sets: Sets)
  {
    |sets.vps| < 0x1_0000 && |sets.sps| < 0x1_0000 && |sets.pps| < 0x1_0000
  }

  /** The parameter sets found in any packet survive the way into the record and out
      of it: the packet read back holds the same sets. */
  lemma ConfigSurvives(hevc: bool, packet: seq<byte>)
    requires Fit(Collect(hevc, packet, NO_SETS))
    ensures var sets := Collect(hevc, packet, NO_SETS);
      ReadRecord(hevc, Record(hevc, sets)) == Repacked(hevc, sets)
      && Collect(hevc, Repacked(hevc, sets), NO_SETS) == sets
  {
    hide Collect, Sized32, AvcRead, HevcRead, AvcRecord, HevcRecord, AvcType, HevcType;
    CollectTyped(hevc, packet, NO_SETS);
    var sets := Collect(hevc, packet, NO_SETS);
    assert Sized32(sets.pps) + [] == Sized32(sets.pps);
    if hevc {
      HevcReads(sets.vps, sets.sps, sets.pps);
      CollectOne(hevc, sets.vps, Sized32(sets.sps) + Sized32(sets.pps), NO_SETS);
      CollectOne(hevc, sets.sps, Sized32(sets.pps), Sets(sets.vps, [], []));
      CollectOne(hevc, sets.pps, [], Sets(sets.vps, sets.sps, []));
    } else {
      AvcReads(sets.sps, sets.pps);
      CollectOne(hevc, sets.sps, Sized32(sets.pps), NO_SETS);
      CollectOne(hevc, sets.pps, [], Sets([], sets.sps, []));
    }
    CollectNone(hevc, sets);
  }
}
