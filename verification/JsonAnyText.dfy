/** What JSONReader tells of any text, well formed or not: whole values, in brackets that
    match. */
module JsonAnyText {
  import opened Options
  import opened Ascii
  import opened Json
  import opened JsonReader
  import opened JsonRoundTrip

  /** Calls as a tree. The count an array is begun with stands beside its items. */
  datatype Tree = Leaf(call: Call) | Items(count: nat, items: Trees) | Members(kind: Option<string>, members: Fields)

  datatype Trees = NoTree | Trees(head: Tree, tail: Trees)

  datatype Fields = NoMember | Member(name: string, value: Trees, others: Fields)

  function Told(t: Tree): seq<Call>
  {
    match t
    case Leaf(c) => [c]
    case Items(n, items) => [BeginArray(n)] + ToldAll(items) + [EndArray]
    case Members(kind, members) => [BeginObject(kind)] + ToldMembers(members) + [EndObject]
  }

  function ToldAll(ts: Trees): seq<Call>
  {
    if ts.NoTree? then [] else Told(ts.head) + ToldAll(ts.tail)
  }

  function ToldMembers(ms: Fields): seq<Call>
  {
    if ms.NoMember? then [] else [PropertyName(ms.name)] + ToldAll(ms.value) + ToldMembers(ms.others)
  }

  predicate Scalar(c: Call)
  {
    c.WriteNumber? || c.WriteString? || c.WriteBoolean? || c.WriteNull? || c.WriteDate? || c.WriteByte?
  }

  function Size(ts: Trees): nat
  {
    if ts.NoTree? then 0 else 1 + Size(ts.tail)
  }

  /** Leaves are scalars, every array has the items it announces, every member one value. */
  predicate Exact(t: Tree)
  {
    match t
    case Leaf(c) => Scalar(c)
    case Items(n, items) => Size(items) == n && ExactAll(items)
    case Members(_, members) => ExactMembers(members)
  }

  predicate ExactAll(ts: Trees)
  {
    ts.Trees? ==> Exact(ts.head) && ExactAll(ts.tail)
  }

  predicate ExactMembers(ms: Fields)
  {
    ms.Member? ==> Size(ms.value) == 1 && ExactAll(ms.value) && ExactMembers(ms.others)
  }

  predicate NoBytes(calls: seq<Call>)
  {
    forall i :: 0 <= i < |calls| ==> !calls[i].WriteByte?
  }

  lemma NoBytesBoth(a: seq<Call>, b: seq<Call>)
    ensures NoBytes(a + b) <==> NoBytes(a) && NoBytes(b)
  {
    if NoBytes(a + b) {
      assert forall i :: 0 <= i < |a| ==> (a + b)[i] == a[i];
      assert forall i :: 0 <= i < |b| ==> (a + b)[|a| + i] == b[i];
    }
  }

  /** Whole values `ts`, all exact unless raw bytes are among them. */
  predicate Tells(calls: seq<Call>, ts: Trees)
  {
    calls == ToldAll(ts) && (NoBytes(calls) ==> ExactAll(ts))
  }

  /** One value: a whole one, or none, or raw bytes whose object is refused behind them. */
  predicate TellsOne(x: Read, ts: Trees)
  {
    && Tells(x.calls, ts)
    && (x.ok ==> Size(ts) == 1)
    && (!x.ok ==> ts == NoTree || (Size(ts) == 1 && ts.head.Leaf? && ts.head.call.WriteByte?))
  }

  lemma OneTold(t: Tree)
    ensures ToldAll(Trees(t, NoTree)) == Told(t) && Size(Trees(t, NoTree)) == 1
  {
    assert Told(t) + [] == Told(t);
  }

  lemma {:induction false} ValueTold(o: Oracle, r: string) returns (ts: Trees)
    ensures TellsOne(ReadNext(o, r), ts)
    decreases |r|, 3, 0
  {
    hide Follow, ReadOne, TellsOne;
    var f := Follow(o, r);
    if f.token == End {
      ts := NoTree;
      NoneTold(f.rest);
    } else {
      ts := OneTokenTold(o, f);
    }
  }

  lemma NoneTold(rest: string)
    ensures TellsOne(Read(false, [], rest), NoTree)
  {
  }

  lemma ScalarTold(c: Call, rest: string)
    requires Scalar(c)
    ensures TellsOne(Read(true, [c], rest), Trees(Leaf(c), NoTree))
  {
    OneTold(Leaf(c));
  }

  lemma {:induction false} OneTokenTold(o: Oracle, f: Following) returns (ts: Trees)
    requires f.rest != "" && (f.token in {Nil, Truth(true), Truth(false), Num} ==> f.text != "")
    ensures TellsOne(ReadOne(o, f), ts)
    decreases |f.rest|, 2, 0
  {
    hide ReadArray, ReadFields, TellsOne;
    match f.token {
      case Arr =>
        ts := ArrayTold(o, f.rest[1..]);
      case Obj =>
        ts := ObjectTold(o, Drop(f.rest, 1));
      case End =>
        ts := ObjectTold(o, Drop(f.rest, 1));
      case _ =>
        var c := ReadOne(o, f).calls[0];
        ScalarTold(c, ReadOne(o, f).rest);
        ts := Trees(Leaf(c), NoTree);
    }
  }

  lemma {:induction false} ArrayTold(o: Oracle, r: string) returns (ts: Trees)
    ensures TellsOne(ReadArray(o, r), ts)
    decreases |r|, 5, 0
  {
    hide ReadItems, CountElements, ToldAll, ExactAll;
    var c := CountElements(r);
    var s := if c.lost then "" else Trim(r);
    var items := ItemsTold(o, s, c.count);
    var calls := ReadItems(o, s, c.count).calls;
    ts := Trees(Items(c.count, items), NoTree);
    OneTold(ts.head);
    NoBytesBoth([BeginArray(c.count)] + calls, [EndArray]);
    NoBytesBoth([BeginArray(c.count)], calls);
    ExactOne(ts.head);
  }

  lemma ExactOne(t: Tree)
    ensures ExactAll(Trees(t, NoTree)) <==> Exact(t)
  {
  }

  /** As many items as counted, or more where raw bytes are refused behind them. */
  lemma {:induction false} ItemsTold(o: Oracle, r: string, n: nat) returns (ts: Trees)
    ensures Tells(ReadItems(o, r, n).calls, ts)
    ensures n <= Size(ts) && (NoBytes(ReadItems(o, r, n).calls) ==> Size(ts) == n)
    decreases |r|, 4, n
  {
    hide ReadNext, Tells, NoBytes;
    if n == 0 {
      ts := NoTree;
      NothingTold();
    } else {
      var x := ReadNext(o, r);
      var first := ValueTold(o, r);
      var later := ItemsTold(o, x.rest, n - 1);
      var calls := ReadItems(o, x.rest, n - 1).calls;
      var told := x.calls + if x.ok then [] else [WriteNull];
      var front := WithNull(x, first);
      assert Tells(told, front);
      ts := Joined(front, later);
      TellsBoth(told, front, calls, later);
      NoBytesBoth(told, calls);
    }
  }

  lemma NothingTold()
    ensures Tells([], NoTree) && ExactAll(NoTree)
  {
  }

  /** A value not read is told as null, behind whatever was told of it. */
  lemma WithNull(x: Read, first: Trees) returns (ts: Trees)
    requires TellsOne(x, first)
    ensures Tells(x.calls + (if x.ok then [] else [WriteNull]), ts)
    ensures Size(ts) == if !x.ok && first != NoTree then 2 else 1
    ensures !x.ok && first != NoTree ==> !NoBytes(x.calls + [WriteNull])
  {
    hide NoBytes;
    if x.ok {
      ts := first;
      assert x.calls + [] == x.calls;
    } else {
      var nil := Trees(Leaf(WriteNull), NoTree);
      OneTold(nil.head);
      ts := Joined(first, nil);
      TellsBoth(x.calls, first, [WriteNull], nil);
      NoBytesBoth(x.calls, [WriteNull]);
      if first != NoTree {
        OneTold(first.head);
        BytesTold(x.calls, first.head.call);
      }
    }
  }

  lemma BytesTold(calls: seq<Call>, c: Call)
    requires calls == [c] && c.WriteByte?
    ensures !NoBytes(calls)
  {
    assert calls[0].WriteByte?;
  }

  function Joined(a: Trees, b: Trees): (c: Trees)
    ensures Size(c) == Size(a) + Size(b)
  {
    if a.NoTree? then b else Trees(a.head, Joined(a.tail, b))
  }

  lemma {:induction false} JoinedTold(a: Trees, b: Trees)
    ensures ToldAll(Joined(a, b)) == ToldAll(a) + ToldAll(b)
    ensures ExactAll(Joined(a, b)) <==> ExactAll(a) && ExactAll(b)
  {
    hide Told, Exact;
    if a.Trees? {
      JoinedTold(a.tail, b);
    }
  }

  lemma TellsBoth(x: seq<Call>, a: Trees, y: seq<Call>, b: Trees)
    requires Tells(x, a) && Tells(y, b)
    ensures Tells(x + y, Joined(a, b))
  {
    hide ToldAll, ExactAll, NoBytes;
    JoinedTold(a, b);
    NoBytesBoth(x, y);
  }

  // ----- objects ---------------------------------------------------------------------------------

  /** What is told of an object under way: members up to its end. */
  predicate TellsMembers(calls: seq<Call>, ms: Fields)
  {
    calls == ToldMembers(ms) + [EndObject] && (NoBytes(calls) ==> ExactMembers(ms))
  }

  /** Behind raw bytes the rest of their object is told to nobody. */
  lemma {:induction false} MuteTold(o: Oracle, r: string, started: bool)
    ensures ReadFields(o, r, started, true).calls == []
    ensures started ==> ReadFields(o, r, started, true).ok
    decreases |r|, 1, 0
  {
    hide ReadField;
    var s := Trim(r);
    if s != "" && s[0] != '}' {
      if !started {
        MuteField(o, s, false);
      } else if s[0] == ',' && Trim(s[1..]) != "" {
        MuteField(o, Trim(s[1..]), true);
      }
    }
  }

  lemma {:induction false} MuteField(o: Oracle, r: string, started: bool)
    requires r != ""
    ensures ReadField(o, r, started, true).calls == []
    ensures started ==> ReadField(o, r, started, true).ok
    decreases |r|, 0, 0
  {
    hide ReadFields, ReadProperty, IsTypeKey, IsBinKey, TextSize;
    var key := ToString(r);
    if key.found {
      var colon := Trim(Drop(key.rest, |key.text| + 2));
      if colon != "" && colon[0] == ':' {
        if started {
          MuteProperty(o, key.text, colon[1..], []);
        } else {
          var value := Trim(colon[1..]);
          if value != "" && value[0] == '\"' && (IsTypeKey(key.text) || IsBinKey(key.text)) {
            var text := ToString(value);
            if text.found {
              MuteTold(o, Drop(text.rest, |text.text| + 2), true);
              MuteTold(o, Drop(text.rest, |text.text| + 2), false);
            }
          } else if value != "" {
            MuteProperty(o, key.text, value, [BeginObject(None)]);
          }
        }
      }
    }
  }

  lemma {:induction false} MuteProperty(o: Oracle, name: string, r: string, begun: seq<Call>)
    ensures ReadProperty(o, name, r, begun, true).calls == [] && ReadProperty(o, name, r, begun, true).ok
    decreases |r|, 6, 0
  {
    hide ReadNext, ReadFields;
    var x := ReadNext(o, r);
    if x.ok {
      MuteTold(o, x.rest, true);
    }
  }

  /** An object from its first member on. */
  lemma {:induction false} ObjectTold(o: Oracle, r: string) returns (ts: Trees)
    ensures TellsOne(ReadFields(o, r, false, false), ts)
    decreases |r|, 1, 0
  {
    hide ReadField, TellsOne;
    var s := Trim(r);
    if s == "" || s[0] == '}' {
      ts := EmptyTold(Drop(s, 1));
    } else {
      ts := FirstTold(o, s);
    }
  }

  lemma EmptyTold(rest: string) returns (ts: Trees)
    ensures TellsOne(Read(true, [BeginObject(None)] + [EndObject], rest), ts)
  {
    ts := Trees(Members(None, NoMember), NoTree);
    OneTold(ts.head);
    assert [BeginObject(None)] + [] + [EndObject] == [BeginObject(None)] + [EndObject];
  }

  lemma BegunTold(kind: Option<string>, calls: seq<Call>, ms: Fields, rest: string) returns (ts: Trees)
    requires TellsMembers(calls, ms)
    ensures TellsOne(Read(true, [BeginObject(kind)] + calls, rest), ts)
  {
    hide ToldMembers, ExactMembers, NoBytes;
    ts := Trees(Members(kind, ms), NoTree);
    OneTold(ts.head);
    ExactOne(ts.head);
    NoBytesBoth([BeginObject(kind)], calls);
    assert [BeginObject(kind)] + (ToldMembers(ms) + [EndObject]) == [BeginObject(kind)] + ToldMembers(ms) + [EndObject];
  }

  lemma {:induction false} FirstTold(o: Oracle, r: string) returns (ts: Trees)
    requires r != ""
    ensures TellsOne(ReadField(o, r, false, false), ts)
    decreases |r|, 0, 0
  {
    hide ReadFields, ReadProperty, IsTypeKey, IsBinKey, TextSize, TellsOne, TellsMembers, SameLetters;
    var key := ToString(r);
    var x := ReadField(o, r, false, false);
    NoneTold("");
    if !key.found {
      return NoTree;
    }
    var colon := Trim(Drop(key.rest, |key.text| + 2));
    if colon == "" || colon[0] != ':' {
      return NoTree;
    }
    var value := Trim(colon[1..]);
    if value == "" {
      return NoTree;
    }
    if value[0] == '\"' && (IsTypeKey(key.text) || IsBinKey(key.text)) {
      var text := ToString(value);
      if !text.found {
        return NoTree;
      }
      var later := Drop(text.rest, |text.text| + 2);
      if IsTypeKey(key.text) {
        var ms := MembersTold(o, later);
        ts := BegunTold(Some(text.text), ReadFields(o, later, true, false).calls, ms, x.rest);
      } else {
        MuteTold(o, later, false);
        ts := Trees(Leaf(WriteByte(text.text)), NoTree);
        AloneTold(text.text, x);
      }
    } else {
      var ms, calls := PropertyTold(o, key.text, value, [BeginObject(None)]);
      ts := BegunTold(None, calls, ms, x.rest);
    }
  }

  lemma AloneTold(b: string, x: Read)
    requires x.calls == [WriteByte(b)] + []
    ensures TellsOne(x, Trees(Leaf(WriteByte(b)), NoTree))
  {
    OneTold(Leaf(WriteByte(b)));
  }

  /** The members of an object that has begun. */
  lemma {:induction false} MembersTold(o: Oracle, r: string) returns (ms: Fields)
    ensures ReadFields(o, r, true, false).ok && TellsMembers(ReadFields(o, r, true, false).calls, ms)
    decreases |r|, 1, 0
  {
    hide ReadProperty, TextSize, TellsMembers;
    NoMembersTold();
    ms := NoMember;
    var s := Trim(r);
    if s == "" || s[0] != ',' || Trim(s[1..]) == "" {
      return;
    }
    var s1 := Trim(s[1..]);
    var key := ToString(s1);
    if !key.found {
      return;
    }
    var colon := Trim(Drop(key.rest, |key.text| + 2));
    if colon == "" || colon[0] != ':' {
      return;
    }
    var calls;
    ms, calls := PropertyTold(o, key.text, colon[1..], []);
    assert [] + calls == calls;
  }

  lemma NoMembersTold()
    ensures TellsMembers([EndObject], NoMember)
  {
    assert [] + [EndObject] == [EndObject];
  }

  lemma {:induction false} PropertyTold(o: Oracle, name: string, r: string, begun: seq<Call>) returns (ms: Fields, calls: seq<Call>)
    ensures ReadProperty(o, name, r, begun, false).ok && ReadProperty(o, name, r, begun, false).calls == begun + calls
    ensures TellsMembers(calls, ms)
    decreases |r|, 6, 0
  {
    hide ReadNext, ReadFields, TellsMembers, NoBytes, Tells;
    var x := ReadNext(o, r);
    var value := ValueTold(o, r);
    var front := WithNull(x, value);
    var told := x.calls + if x.ok then [] else [WriteNull];
    var later := [EndObject];
    ms := NoMember;
    if x.ok {
      ms := MembersTold(o, x.rest);
      later := ReadFields(o, x.rest, true, false).calls;
      assert told == x.calls;
    } else {
      NoMembersTold();
      assert x.calls + ([WriteNull] + [EndObject]) == told + later;
    }
    calls := [PropertyName(name)] + told + later;
    ms := MemberTold(name, told, front, later, ms);
    assert begun + [PropertyName(name)] + told + later == begun + calls;
    assert [WriteNull, EndObject] == [WriteNull] + [EndObject];
    var named := begun + [PropertyName(name)];
    assert named + x.calls + ([WriteNull] + [EndObject]) == named + (x.calls + [WriteNull]) + [EndObject];
  }

  lemma MemberTold(name: string, told: seq<Call>, value: Trees, later: seq<Call>, others: Fields) returns (ms: Fields)
    requires Tells(told, value) && (NoBytes(told) ==> Size(value) == 1) && TellsMembers(later, others)
    ensures TellsMembers([PropertyName(name)] + told + later, ms)
  {
    hide NoBytes, ExactAll, ToldAll;
    ms := Member(name, value, others);
    NoBytesBoth([PropertyName(name)] + told, later);
    NoBytesBoth([PropertyName(name)], told);
    var front := [PropertyName(name)] + told;
    assert front + (ToldMembers(others) + [EndObject]) == front + ToldMembers(others) + [EndObject];
  }

  // ----- the whole text -----------------------------------------------------------------------------

  lemma {:induction false} AllTold(o: Oracle, r: string) returns (ts: Trees)
    ensures Tells(ReadAll(o, r).calls, ts)
    decreases |r|
  {
    hide ReadNext, Tells;
    var x := ReadNext(o, r);
    ts := ValueTold(o, r);
    assert Tells(x.calls, ts);
    if x.ok {
      var later := AllTold(o, x.rest);
      TellsBoth(x.calls, ts, ReadAll(o, x.rest).calls, later);
      ts := Joined(ts, later);
    }
  }

  /** Whatever the text, what is told of it is whole values, every bracket closed in order;
      and where no raw bytes are told, every array has exactly the items it announces and
      every member one value. */
  lemma AnyTextTold(o: Oracle, text: string)
    ensures exists ts :: Tells(ReadAll(o, text).calls, ts)
  {
    hide Tells, ReadAll;
    var ts := AllTold(o, text);
  }

  // ----- arrays the counter gives up -------------------------------------------------------------

  /** Values followed by another bracket than their own, or by a comma too many, are given
      up, with as many elements as went before. */
  lemma ArrayLost(o: Oracle, vs: Values, rest: string)
    requires ReadableItems(o, vs)
    ensures CountElements(PrintItems(vs, true) + "}" + rest) == Count(Length(vs), true)
    ensures CountElements(PrintItems(vs, true) + ",," + rest) == Count(Length(vs), true)
  {
    hide CountFrom, Readable;
    var t := Tally(0, true, false, 0);
    var end := TallyItems(vs, true, t);
    TallyTop(vs, true, t);
    forall tail | tail in {"}" + rest, ",," + rest}
      ensures CountElements(PrintItems(vs, true) + tail) == Count(Length(vs), true)
    {
      ItemsBegin(o, vs, tail);
      TrimNothing(PrintItems(vs, true) + tail);
      CountsItems(o, vs, true, tail, t);
      LostThere(rest, end);
    }
    assert PrintItems(vs, true) + "}" + rest == PrintItems(vs, true) + ("}" + rest);
    assert PrintItems(vs, true) + ",," + rest == PrintItems(vs, true) + (",," + rest);
  }

  lemma LostThere(rest: string, t: Tally)
    requires t.inner == 0
    ensures CountFrom("}" + rest, t) == Count(t.count, true)
    ensures CountFrom(",," + rest, t) == Count(t.count, true)
  {
    hide TextSize;
    var s := ",," + rest;
    assert s[1..] == "," + rest;
  }

  function Nulls(n: nat): (calls: seq<Call>)
    ensures |calls| == n
  {
    seq(n, _ => WriteNull)
  }

  /** An array given up is told as nulls, and nothing behind it is read. */
  lemma LostIsNulls(o: Oracle, r: string)
    requires CountElements(r).lost
    ensures var n := CountElements(r).count;
      ReadArray(o, r) == Read(true, [BeginArray(n)] + Nulls(n) + [EndArray], "")
  {
    hide CountElements, ReadItems;
    NothingToRead(o, CountElements(r).count);
  }

  lemma {:induction false} NothingToRead(o: Oracle, n: nat)
    ensures ReadItems(o, "", n) == Read(true, Nulls(n), "")
  {
    if n > 0 {
      NothingToRead(o, n - 1);
      assert ReadNext(o, "") == Read(false, [], "");
      assert [] + [WriteNull] + Nulls(n - 1) == Nulls(n);
    }
  }

  /** Where raw bytes are told it need not: their object is refused at anything behind them,
      and the array it stands in tells one item more than it announces. */
  lemma BytesMiscounted(o: Oracle)
    ensures ReadArray(o, "{\"__bin\":\"AA\"x}]").calls == [BeginArray(1)] + [WriteByte("AA"), WriteNull] + [EndArray]
  {
    hide CountElements, ReadNext;
    var r := "{\"__bin\":\"AA\"x}]";
    BytesCounted();
    BytesRefused(o);
    assert Trim(r) == r;
    assert ReadItems(o, ReadNext(o, r).rest, 0).calls == [];
  }

  lemma BytesCounted()
    ensures CountElements("{\"__bin\":\"AA\"x}]") == Count(1, false)
  {
    hide CountFrom, TextSize;
    KeyCounted();
    DataCounted();
    TrimNothing("{\"__bin\":\"AA\"x}]");
  }

  lemma KeyCounted()
    ensures CountFrom("{\"__bin\":\"AA\"x}]", Tally(0, true, false, 0)) == CountFrom(":\"AA\"x}]", Tally(1, false, false, 0))
  {
    hide CountFrom, TextSize;
    var r := ":\"AA\"x}]";
    assert "{\"__bin\":\"AA\"x}]" == ['{'] + ("\"" + "__bin" + "\"" + r);
    CountsOpen('{', "\"" + "__bin" + "\"" + r, Tally(0, true, false, 0));
    PlainSize("__bin", r);
    CountsQuoted("__bin", r, Tally(1, true, false, 0));
  }

  lemma DataCounted()
    ensures CountFrom(":\"AA\"x}]", Tally(1, false, false, 0)) == Count(1, false)
  {
    hide CountFrom, TextSize;
    var inner := Tally(1, false, false, 0);
    assert ":\"AA\"x}]" == [':'] + ("\"" + "AA" + "\"" + "x}]");
    CountsPlain(':', "\"" + "AA" + "\"" + "x}]", inner);
    PlainSize("AA", "x}]");
    CountsQuoted("AA", "x}]", inner);
    assert "x}]" == ['x'] + "}]" && "}]" == ['}'] + "]";
    CountsPlain('x', "}]", inner);
    CountsClose('}', "]", inner);
    CountEnds("]", Tally(0, false, true, 1));
  }

  lemma BytesRefused(o: Oracle)
    ensures ReadNext(o, "{\"__bin\":\"AA\"x}]") == Read(false, [WriteByte("AA")], "")
  {
    hide ReadFields, ToString;
    var r := "\"__bin\":\"AA\"x}]";
    BytesKey();
    MuteRefused(o);
    assert Trim(r) == r;
    assert ReadFields(o, r, false, false) == ReadField(o, r, false, false) by {
      FieldsUnfold(o, r);
    }
  }

  lemma FieldsUnfold(o: Oracle, r: string)
    requires r != "" && r[0] != '}' && Trim(r) == r
    ensures ReadFields(o, r, false, false) == ReadField(o, r, false, false)
  {
    hide ReadField;
  }

  lemma BytesKey()
    ensures ToString("\"__bin\":\"AA\"x}]") == Jump(true, "__bin", "\"__bin\":\"AA\"x}]")
    ensures ToString("\"AA\"x}]") == Jump(true, "AA", "\"AA\"x}]")
    ensures IsBinKey("__bin") && !IsTypeKey("__bin")
  {
    hide TextSize;
    PlainSize("__bin", ":\"AA\"x}]");
    PlainSize("AA", "x}]");
    assert "\"__bin\":\"AA\"x}]"[1..] == "__bin" + "\"" + ":\"AA\"x}]";
    assert "\"AA\"x}]"[1..] == "AA" + "\"" + "x}]";
  }

  lemma MuteRefused(o: Oracle)
    ensures ReadFields(o, "x}]", false, true) == Read(false, [], "")
  {
    hide ReadProperty;
    assert Trim("x}]") == "x}]";
    assert ToString("x}]") == Jump(false, "", "");
  }
}
