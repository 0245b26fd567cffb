/** Exactly which values JSONReader does not read back as JSONWriter wrote them. */
module JsonExactly {
  import opened Options
  import opened Ascii
  import opened Json
  import opened JsonReader
  import opened JsonRoundTrip

  // ----- calls that part at some place ----------------------------------------------

  /** At some place the two differ, whatever comes behind. */
  ghost predicate Diverges(a: seq<Call>, b: seq<Call>)
  {
    exists k :: 0 <= k < |a| && k < |b| && a[k] != b[k]
  }

  lemma DivergesWithin(before: seq<Call>, a: seq<Call>, b: seq<Call>, behindA: seq<Call>, behindB: seq<Call>)
    requires Diverges(a, b)
    ensures Diverges(before + a + behindA, before + b + behindB)
  {
    var k :| 0 <= k < |a| && k < |b| && a[k] != b[k];
    assert (before + a + behindA)[|before| + k] == a[k] && (before + b + behindB)[|before| + k] == b[k];
  }

  // ----- from the first misnamed object on -----------------------------------------------

  /** A misnamed object is taken for a typed one, or for raw bytes. */
  lemma MisreadsKey(o: Oracle, fields: Fields, rest: string)
    requires ReadableFields(o, fields) && Misnamed(None, fields)
    ensures Diverges(ReadNext(o, Print(Object(None, fields)) + rest).calls, AllEscaped(Calls(Object(None, fields))))
  {
    hide ReadNext, ReadFields, Escape, TextSize, IsTypeKey, IsBinKey, AllEscaped, Calls, PrintFields, Print, Quoted, Misnamed;
    MisnamedParts(fields);
    var more := PrintFields(fields.others, false) + ("}" + rest);
    UntypedText(fields, rest);
    ContainerFollows(o, '{', Quoted(fields.name) + ":" + (Print(fields.value) + more));
    var text := QuotedValue(o, fields.value, more);
    KeyBegins(o, fields.name, text, more);
    UntypedCalls(fields);
    assert ReadNext(o, Print(Object(None, fields)) + rest).calls[0] != BeginObject(None);
  }

  lemma MisnamedParts(fields: Fields)
    requires Misnamed(None, fields)
    ensures fields.Field? && InQuotes(fields.value) && (IsTypeKey(Escape(fields.name)) || IsBinKey(Escape(fields.name)))
  {
  }

  lemma QuotedValue(o: Oracle, v: Value, more: string) returns (text: string)
    requires Readable(o, v) && InQuotes(v)
    ensures Print(v) + more == "\"" + text + "\"" + more && TextSize(text + "\"" + more) == Some(|text|)
  {
    hide Escape, TextSize;
    if v.Text? {
      text := Escape(v.text);
      EscapedSize(v.text, more);
    } else {
      text := v.date;
      PlainSize(v.date, more);
    }
  }

  lemma {:induction false} MisreadsValue(o: Oracle, v: Value, rest: string)
    requires Readable(o, v) && !Clean(v) && Ends(rest)
    ensures Diverges(ReadNext(o, Print(v) + rest).calls, AllEscaped(Calls(v)))
    decreases v, 0
  {
    hide ReadNext, Print, Calls, AllEscaped, Diverges;
    match v {
      case Array(items) => MisreadsArray(o, items, rest);
      case Object(kind, fields) => MisreadsObject(o, kind, fields, rest);
      case _ =>
    }
  }

  lemma ItemsUnfold(o: Oracle, r: string, n: nat)
    requires n > 0
    ensures var x := ReadNext(o, r);
      ReadItems(o, r, n).calls
      == x.calls + ((if x.ok then [] else [WriteNull]) + ReadItems(o, x.rest, n - 1).calls)
  {
    hide ReadNext;
    var x := ReadNext(o, r);
    var instead: seq<Call> := if x.ok then [] else [WriteNull];
    var later := ReadItems(o, x.rest, n - 1).calls;
    assert x.calls + instead + later == x.calls + (instead + later);
  }

  /** The first of some values, as it is read. */
  lemma ItemFirst(o: Oracle, vs: Values, first: bool, rest: string)
    requires ReadableItems(o, vs) && vs.Item? && Ends(rest)
    ensures var r := PrintItems(vs.tail, false) + rest;
      ReadNext(o, PrintItems(vs, first) + rest) == ReadNext(o, Print(vs.head) + r) && Ends(r)
  {
    hide ReadNext, Readable, Print, Begins, Ends;
    var r := PrintItems(vs.tail, false) + rest;
    assert PrintItems(vs, first) + rest == (if first then "" else ",") + (Print(vs.head) + r);
    if first {
      assert "" + (Print(vs.head) + r) == Print(vs.head) + r;
    } else {
      PrintBegins(o, vs.head, r);
      CommaSkipped(o, Print(vs.head) + r);
    }
    MoreItemsEnd(vs.tail, rest);
  }

  lemma {:induction false} MisreadsItems(o: Oracle, vs: Values, first: bool, rest: string)
    requires ReadableItems(o, vs) && !CleanItems(vs) && Ends(rest)
    ensures Diverges(ReadItems(o, PrintItems(vs, first) + rest, Length(vs)).calls, AllEscaped(ItemCalls(vs)))
    decreases vs, 1
  {
    hide ReadNext, ReadItems, Readable, Clean, Print, PrintItems, Calls, AllEscaped, Ends, Diverges;
    var r := PrintItems(vs.tail, false) + rest;
    ItemFirst(o, vs, first, rest);
    ItemsUnfold(o, PrintItems(vs, first) + rest, Length(vs));
    EscapedAppend(Calls(vs.head), ItemCalls(vs.tail));
    var x, expected, later := ReadNext(o, Print(vs.head) + r), AllEscaped(Calls(vs.head)), AllEscaped(ItemCalls(vs.tail));
    var read := ReadItems(o, x.rest, Length(vs) - 1).calls;
    if Clean(vs.head) {
      ReadsValue(o, vs.head, r);
      MisreadsItems(o, vs.tail, false, rest);
      DivergesWithin(expected, read, later, [], []);
      Closed(expected, read);
      Closed(expected, later);
      assert [] + read == read;
    } else {
      MisreadsValue(o, vs.head, r);
      var instead: seq<Call> := if x.ok then [] else [WriteNull];
      DivergesWithin([], x.calls, expected, instead + read, later);
      Front(x.calls, instead + read);
      Front(expected, later);
    }
  }

  lemma Closed(a: seq<Call>, b: seq<Call>)
    ensures a + b + [] == a + b && a + [] + b == a + b
  {
  }

  lemma Front(a: seq<Call>, b: seq<Call>)
    ensures [] + a + b == a + b
  {
  }

  lemma {:induction false} MisreadsArray(o: Oracle, items: Values, rest: string)
    requires ReadableItems(o, items) && !CleanItems(items)
    ensures Diverges(ReadNext(o, Print(Array(items)) + rest).calls, AllEscaped(Calls(Array(items))))
    decreases items, 2
  {
    hide ReadNext, Readable, CountElements, ReadItems, Print, Calls, ItemCalls, AllEscaped, PrintItems, ReadableItems,
      CleanItems, Diverges;
    var close := "]" + rest;
    var s := PrintItems(items, true) + close;
    ArrayText(items, rest);
    ContainerFollows(o, '[', s);
    CountIsExact(o, items, rest);
    ItemsBegin(o, items, close);
    TrimNothing(s);
    MisreadsItems(o, items, true, close);
    ArrayCalls(items);
    DivergesWithin([BeginArray(Length(items))], ReadItems(o, s, Length(items)).calls, AllEscaped(ItemCalls(items)),
                   [EndArray], [EndArray]);
  }

  /** A name and an unclean value. */
  lemma {:induction false} MisreadsProperty(o: Oracle, name: string, v: Value, begun: seq<Call>, more: string,
                                            later: seq<Call>)
    requires Readable(o, v) && !Clean(v) && Ends(more)
    ensures Diverges(ReadProperty(o, name, Print(v) + more, begun, false).calls,
                     begun + [PropertyName(name)] + AllEscaped(Calls(v)) + later)
    decreases v, 1
  {
    hide ReadNext, Readable, ReadFields, Ends, Diverges, Print, Calls, AllEscaped;
    MisreadsValue(o, v, more);
    var x := ReadNext(o, Print(v) + more);
    var calls := begun + [PropertyName(name)];
    if x.ok {
      DivergesWithin(calls, x.calls, AllEscaped(Calls(v)), ReadFields(o, x.rest, true, false).calls, later);
    } else {
      DivergesWithin(calls, x.calls, AllEscaped(Calls(v)), [WriteNull, EndObject], later);
    }
  }

  lemma {:induction false} MisreadsFields(o: Oracle, fs: Fields, rest: string)
    requires ReadableFields(o, fs) && !CleanFields(fs)
    ensures Diverges(ReadFields(o, PrintFields(fs, false) + "}" + rest, true, false).calls,
                     AllEscaped(FieldCalls(fs)) + [EndObject])
    decreases fs, 1
  {
    hide ReadFields, ReadProperty, Readable, Clean, Quoted, Escape, Print, Calls, AllEscaped, Diverges;
    var close := "}" + rest;
    var more := PrintFields(fs.others, false) + close;
    assert PrintFields(fs, false) + "}" + rest == "," + Quoted(fs.name) + ":" + (Print(fs.value) + more);
    FieldStarted(o, fs.name, Print(fs.value) + more);
    MoreFieldsEnd(fs.others, close);
    FieldEscaped(fs);
    var name, value := [PropertyName(Escape(fs.name))], AllEscaped(Calls(fs.value));
    var later := AllEscaped(FieldCalls(fs.others)) + [EndObject];
    FieldSum(name, value, AllEscaped(FieldCalls(fs.others)), [EndObject]);
    if Clean(fs.value) {
      assert more == PrintFields(fs.others, false) + "}" + rest;
      ReadsProperty(o, Escape(fs.name), fs.value, [], more);
      MisreadsFields(o, fs.others, rest);
      DivergesWithin(name + value, ReadFields(o, more, true, false).calls, later, [], []);
      Closed(name + value, ReadFields(o, more, true, false).calls);
      Closed(name + value, later);
    } else {
      MisreadsProperty(o, Escape(fs.name), fs.value, [], more, later);
    }
  }

  lemma {:induction false} MisreadsObject(o: Oracle, kind: Option<string>, fields: Fields, rest: string)
    requires ReadableFields(o, fields) && !Clean(Object(kind, fields))
    ensures Diverges(ReadNext(o, Print(Object(kind, fields)) + rest).calls, AllEscaped(Calls(Object(kind, fields))))
    decreases fields, 3
  {
    hide ReadNext, ReadFields, Escape, AllEscaped, Print, Calls, Diverges, Quoted, PrintFields, FieldCalls;
    if Misnamed(kind, fields) {
      MisreadsKey(o, fields, rest);
    } else if kind.Some? {
      var more := PrintFields(fields, false) + "}" + rest;
      TypedText(kind.value, fields, rest);
      ContainerFollows(o, '{', Quoted("__type") + ":" + (Quoted(kind.value) + more));
      TypedBegins(o, kind.value, more);
      MisreadsFields(o, fields, rest);
      ObjectCalls(kind, fields);
      var begun, expected := [BeginObject(Some(Escape(kind.value)))], AllEscaped(FieldCalls(fields));
      DivergesWithin(begun, ReadFields(o, more, true, false).calls, expected + [EndObject], [], []);
      Closed(begun, ReadFields(o, more, true, false).calls);
      Closed(begun, expected + [EndObject]);
      assert begun + (expected + [EndObject]) == begun + expected + [EndObject];
    } else {
      MisreadsUntyped(o, fields, rest);
    }
  }

  lemma {:induction false} MisreadsUntyped(o: Oracle, fields: Fields, rest: string)
    requires ReadableFields(o, fields) && fields.Field? && !Misnamed(None, fields) && !CleanFields(fields)
    ensures Diverges(ReadNext(o, Print(Object(None, fields)) + rest).calls, AllEscaped(Calls(Object(None, fields))))
    decreases fields, 2
  {
    hide ReadNext, ReadFields, ReadProperty, Escape, AllEscaped, Quoted, IsTypeKey, IsBinKey, Print, Calls, PrintFields,
      FieldCalls, Clean, Diverges, Ends;
    var close := "}" + rest;
    var more := PrintFields(fields.others, false) + close;
    var value := Print(fields.value) + more;
    UntypedText(fields, rest);
    ContainerFollows(o, '{', Quoted(fields.name) + ":" + value);
    QuoteFirst(o, fields.value, more);
    FieldFirst(o, fields.name, value);
    EndsAtClose(rest);
    MoreFieldsEnd(fields.others, close);
    UntypedCalls(fields);
    var begun: seq<Call> := [BeginObject(None)];
    var name, expected := [PropertyName(Escape(fields.name))], AllEscaped(Calls(fields.value));
    var later := AllEscaped(FieldCalls(fields.others)) + [EndObject];
    if Clean(fields.value) {
      ReadsProperty(o, Escape(fields.name), fields.value, begun, more);
      assert more == PrintFields(fields.others, false) + "}" + rest;
      MisreadsFields(o, fields.others, rest);
      var x := ReadFields(o, more, true, false).calls;
      DivergesWithin(begun + name + expected, x, later, [], []);
      Closed(begun + name + expected, x);
      Closed(begun + name + expected, later);
    } else {
      MisreadsProperty(o, Escape(fields.name), fields.value, begun, more, later);
    }
  }

  lemma QuoteFirst(o: Oracle, v: Value, more: string)
    requires Readable(o, v)
    ensures Begins(Print(v) + more) && ((Print(v) + more)[0] == '\"' ==> InQuotes(v))
  {
    hide PrintItems, PrintFields, Escape;
    PrintBegins(o, v, more);
    assert Print(v)[..1] == [Print(v)[0]] && (Print(v) + more)[0] == Print(v)[0];
  }

  lemma EndsAtClose(rest: string)
    ensures Ends("}" + rest)
  {
  }

  // ----- exactly ----------------------------------------------------------------------------

  /** A value is read back as written if and only if no object in it, however deep, is
      misnamed. */
  lemma ReadsExactly(o: Oracle, v: Value, rest: string)
    requires Readable(o, v) && Ends(rest)
    ensures ReadNext(o, Print(v) + rest) == Read(true, AllEscaped(Calls(v)), rest) <==> Clean(v)
  {
    hide ReadNext, Readable, Clean, Print, Calls, AllEscaped;
    if Clean(v) {
      ReadsValue(o, v, rest);
    } else {
      MisreadsValue(o, v, rest);
    }
  }

  lemma AllUnfold(o: Oracle, r: string)
    ensures var x := ReadNext(o, r);
      ReadAll(o, r).calls == x.calls + if x.ok then ReadAll(o, x.rest).calls else []
  {
    hide ReadNext;
  }

  lemma {:induction false} MisreadsAll(o: Oracle, vs: Values, first: bool)
    requires ReadableItems(o, vs) && !CleanItems(vs)
    ensures Diverges(ReadAll(o, PrintItems(vs, first)).calls, AllEscaped(ItemCalls(vs)))
    decreases vs
  {
    hide ReadNext, ReadAll, Readable, Clean, Print, PrintItems, Calls, AllEscaped, Diverges;
    var r := PrintItems(vs.tail, false);
    assert r + "" == r && PrintItems(vs, first) + "" == PrintItems(vs, first);
    ItemFirst(o, vs, first, "");
    AllUnfold(o, PrintItems(vs, first));
    EscapedAppend(Calls(vs.head), ItemCalls(vs.tail));
    var x, expected, later := ReadNext(o, Print(vs.head) + r), AllEscaped(Calls(vs.head)), AllEscaped(ItemCalls(vs.tail));
    var others: seq<Call> := if x.ok then ReadAll(o, x.rest).calls else [];
    if Clean(vs.head) {
      ReadsValue(o, vs.head, r);
      MisreadsAll(o, vs.tail, false);
      DivergesWithin(expected, others, later, [], []);
      Closed(expected, others);
      Closed(expected, later);
    } else {
      MisreadsValue(o, vs.head, r);
      DivergesWithin([], x.calls, expected, others, later);
      Front(x.calls, others);
      Front(expected, later);
    }
  }

  /** Print then parse: any values written to a fresh JSONWriter give a text that
      JSONReader replays as the same calls, each string in its escaped form and each
      array with its true count, if and only if no object in them is misnamed. */
  lemma RoundTripExactly(o: Oracle, vs: Values)
    requires ReadableItems(o, vs)
    ensures var text := ApplyAll(FRESH, ItemCalls(vs)).data;
      Content(text).Some?
      && var x := ReadAll(o, Content(text).value);
         (x.calls == AllEscaped(ItemCalls(vs)) && x.rest == "" <==> CleanItems(vs))
  {
    hide Content, ReadAll, Readable, ApplyAll, AllEscaped, ItemCalls, PrintItems, CleanItems;
    WritesAll(vs);
    ContentFound(o, vs);
    if CleanItems(vs) {
      ReadsAll(o, vs, true);
    } else {
      MisreadsAll(o, vs, true);
    }
  }

  /** The key of an object's first property decides: a text under __type is not
      read back as a property. */
  lemma TypeKeyMisread(o: Oracle)
    requires !o.isDate("a")
    ensures var v := Object(None, Field("__type", Text("a"), NoField));
      ReadNext(o, Print(v)).calls == [BeginObject(Some("a")), EndObject] != AllEscaped(Calls(v))
  {
    hide ReadNext, ReadFields, Escape, AllEscaped;
    var v := Object(None, Field("__type", Text("a"), NoField));
    TypeKey();
    assert Escape("a") == "a" by {
      EscapeLetter();
    }
    assert Print(v) == Print(Object(Some("a"), NoField)) + "" by {
      assert PrintFields(v.fields, true) == Quoted("__type") + ":" + Quoted("a");
    }
    ReadsTyped(o, "a", NoField, "");
    ObjectCalls(Some("a"), NoField);
    NoneEscaped();
    EscapedAppend([BeginObject(None)] + FieldCalls(v.fields), [EndObject]);
    assert AllEscaped(Calls(v))[0] == BeginObject(None) by {
      ObjectCalls(None, v.fields);
    }
    assert [BeginObject(Some("a"))] + [] + [EndObject] == [BeginObject(Some("a")), EndObject];
  }

  lemma EscapeLetter()
    ensures Escape("a") == "a"
  {
    assert Escape("") == "";
  }

  // ----- which texts are read at all ------------------------------------------------------------

  predicate IsBlank(b: string)
  {
    forall i :: 0 <= i < |b| ==> IsSpace(b[i])
  }

  lemma {:induction false} TrimFront(before: string, r: string)
    requires IsBlank(before)
    ensures Trim(before + r) == Trim(r)
    decreases |before|
  {
    if before == "" {
      assert before + r == r;
    } else {
      assert (before + r)[0] == before[0] && (before + r)[1..] == before[1..] + r;
      TrimFront(before[1..], r);
    }
  }

  /** Up to its first character that is no blank, the last being none. */
  lemma {:induction false} TrimKeeps(x: string, after: string) returns (y: string)
    requires x != "" && !IsSpace(x[|x| - 1])
    ensures Trim(x + after) == y + after && y != "" && y[|y| - 1] == x[|x| - 1]
    decreases |x|
  {
    if IsSpace(x[0]) {
      assert (x + after)[0] == x[0] && (x + after)[1..] == x[1..] + after;
      y := TrimKeeps(x[1..], after);
    } else {
      y := x;
      TrimNothing(x + after);
    }
  }

  lemma {:induction false} TrimBack(x: string, after: string)
    requires IsBlank(after) && x != "" && !IsSpace(x[|x| - 1])
    ensures TrimRight(x + after) == x
    decreases |after|
  {
    if after == "" {
      assert x + after == x;
    } else {
      var n := |after| - 1;
      assert (x + after)[|x + after| - 1] == after[n] && (x + after)[..|x + after| - 1] == x + after[..n];
      TrimBack(x, after[..n]);
    }
  }

  /** Between blanks, a text is taken if and only if it stands in brackets or in braces. */
  lemma ContentExactly(before: string, text: string, after: string)
    requires IsBlank(before) && IsBlank(after) && text != "" && !IsSpace(text[0]) && !IsSpace(text[|text| - 1])
    ensures var last := text[|text| - 1];
      && (Content(before + text + after).Some?
          <==> (|text| > 1 && text[0] == '[' && last == ']') || (text[0] == '{' && last == '}'))
      && (text[0] == '{' && last == '}' ==> Content(before + text + after) == Some(text + after))
  {
    hide IsBlank, IsSpace, TrimRight, Trim;
    assert before + text + after == before + (text + after);
    TrimFront(before, text + after);
    TrimNothing(text + after);
    assert (text + after)[0] == text[0];
    if text[0] == '[' {
      assert (text + after)[1..] == text[1..] + after;
      if |text| > 1 {
        var y := TrimKeeps(text[1..], after);
        TrimBack(y, after);
      } else {
        assert text[1..] + after == after + "";
        TrimFront(after, "");
        TrimNothing("");
        NothingRight();
      }
    } else {
      TrimBack(text, after);
    }
  }

  lemma NothingRight()
    ensures TrimRight("") == ""
  {
  }

  /** An object alone, behind blanks, is read as written. */
  lemma ObjectAlone(o: Oracle, before: string, kind: Option<string>, fields: Fields)
    requires IsBlank(before) && Readable(o, Object(kind, fields)) && Clean(Object(kind, fields))
    ensures var v := Object(kind, fields);
      var content := Content(before + Print(v));
      content.Some? && ReadAll(o, content.value).calls == AllEscaped(Calls(v))
  {
    var v := Object(kind, fields);
    var text := Print(v);
    assert text[0] == '{' && text[|text| - 1] == '}';
    hide *;
    NotBlanks();
    ContentExactly(before, text, "");
    assert before + text + "" == before + text && text + "" == text;
    NoBlank();
    ReadsExactly(o, v, "");
    AllUnfold(o, text);
    ReadsNothing(o);
    assert AllEscaped(Calls(v)) + [] == AllEscaped(Calls(v));
  }

  lemma NotBlanks()
    ensures !IsSpace('{') && !IsSpace('}')
  {
  }

  lemma NoBlank()
    ensures IsBlank("") && Ends("")
  {
  }

  lemma ReadsNothing(o: Oracle)
    ensures ReadAll(o, "").calls == []
  {
    assert ReadNext(o, "") == Read(false, [], "");
  }

  // ----- blanks between tokens --------------------------------------------------------------------

  /** Blanks in front of a value, of a member or of the end of an object or array, and between
      what the counter counts, make no difference. */
  lemma BlanksPassedOver(o: Oracle, b: string, r: string, t: Tally, started: bool, mute: bool)
    requires IsBlank(b)
    ensures ReadNext(o, b + r) == ReadNext(o, r)
    ensures ReadFields(o, b + r, started, mute) == ReadFields(o, r, started, mute)
    ensures ReadArray(o, b + r) == ReadArray(o, r)
    ensures Counted(t) == t ==> CountFrom(b + r, t) == CountFrom(r, t)
  {
    TrimFront(b, r);
    BlanksCounted(b, r, t);
    FollowTrims(o, b + r);
    FollowTrims(o, r);
    hide Trim, IsBlank, CountFrom, ReadOne, ReadField, ReadItems, Follow;
  }

  lemma FollowTrims(o: Oracle, r: string)
    ensures Follow(o, r) == Follow(o, Trim(r))
  {
    TrimNothing(Trim(r));
    hide Bare, ToString;
  }

  lemma {:induction false} BlanksCounted(b: string, r: string, t: Tally)
    requires IsBlank(b)
    ensures CountFrom(b + r, t) == CountFrom(r, CountedIf(b != "", t))
    decreases |b|
  {
    hide CountFrom;
    if b == "" {
      assert b + r == r;
    } else {
      assert b + r == [b[0]] + (b[1..] + r);
      CountsPlain(b[0], b[1..] + r, t);
      BlanksCounted(b[1..], r, Counted(t));
    }
  }

  function CountedIf(some: bool, t: Tally): Tally
  {
    if some then Counted(t) else t
  }

  /** Nor do blanks around the colon of a member. */
  lemma BlanksAroundColon(o: Oracle, name: string, b1: string, b2: string, r: string, started: bool, mute: bool)
    requires IsBlank(b1) && IsBlank(b2)
    ensures ReadField(o, Quoted(name) + (b1 + ":" + b2 + r), started, mute) == ReadField(o, Quoted(name) + (":" + r), started, mute)
  {
    var tail := b2 + r;
    assert b1 + ":" + b2 + r == b1 + (":" + tail);
    KeyRead(name, b1 + (":" + tail));
    KeyRead(name, ":" + r);
    TrimFront(b1, ":" + tail);
    TrimNothing(":" + tail);
    TrimNothing(":" + r);
    assert (":" + tail)[1..] == tail && (":" + r)[1..] == r;
    TrimFront(b2, r);
    PropertyTrims(o, Escape(name), b2, r, mute);
    hide *;
    FieldUnfold(o, Quoted(name) + (b1 + (":" + tail)), started, mute, Escape(name), tail);
    FieldUnfold(o, Quoted(name) + (":" + r), started, mute, Escape(name), r);
  }

  lemma KeyRead(name: string, rest: string)
    ensures var s := Quoted(name) + rest;
      s != "" && ToString(s) == Jump(true, Escape(name), s) && Drop(s, |Escape(name)| + 2) == rest
  {
    hide TextSize, Escape;
    EscapedSize(name, rest);
    var s := Quoted(name) + rest;
    TrimNothing(s);
    assert s[1..] == Escape(name) + "\"" + rest;
  }

  lemma PropertyTrims(o: Oracle, name: string, b: string, r: string, mute: bool)
    requires IsBlank(b)
    ensures ReadProperty(o, name, b + r, [], mute) == ReadProperty(o, name, r, [], mute)
  {
    hide ReadNext, ReadFields;
    BlanksPassedOver(o, b, r, Tally(0, true, false, 0), false, mute);
  }

  /** What a member reads, given its name and what stands behind its colon. */
  function Member(o: Oracle, name: string, r: string, started: bool, mute: bool): Read
  {
    if started then ReadProperty(o, name, r, [], mute) else FirstMember(o, name, Trim(r), mute)
  }

  function FirstMember(o: Oracle, name: string, value: string, mute: bool): Read
  {
    if value == "" then Read(false, [], "")
    else if value[0] == '\"' && (IsTypeKey(name) || IsBinKey(name)) then
      var text := ToString(value);
      if !text.found then Read(false, [], "")
      else
        var later := Drop(text.rest, |text.text| + 2);
        if IsTypeKey(name) then With(Said(mute, [BeginObject(Some(text.text))]), ReadFields(o, later, true, mute))
        else With(Said(mute, [WriteByte(text.text)]), ReadFields(o, later, false, true))
    else ReadProperty(o, name, value, [BeginObject(None)], mute)
  }

  lemma FieldUnfold(o: Oracle, r: string, started: bool, mute: bool, name: string, tail: string)
    requires r != "" && ToString(r) == Jump(true, name, r)
    requires var colon := Trim(Drop(r, |name| + 2)); colon != "" && colon[0] == ':' && colon[1..] == tail
    ensures ReadField(o, r, started, mute) == Member(o, name, tail, started, mute)
  {
    hide ReadProperty, ReadFields, IsTypeKey, IsBinKey;
  }
}
