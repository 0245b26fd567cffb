/** Reading back what JSONWriter wrote: the same calls, strings escaped, every
    array's count exact. */
module JsonRoundTrip {
  import opened Options
  import opened Ascii
  import opened Json
  import opened JsonReader

  // ----- which values keep their meaning as text --------------------------------------

  predicate NoneOf(s: string, marks: string)
  {
    forall i :: 0 <= i < |s| ==> s[i] !in marks
  }

  /** A number's text: no separator, bracket or quote, no blank at its ends, not a
      word of its own, and a number to the reader. */
  predicate IsNumberText(o: Oracle, n: string)
  {
    && n != "" && NoneOf(n, ",{}[]\"") && !IsSpace(n[0]) && !IsSpace(n[|n| - 1])
    && !SameLetters(n, "true") && !SameLetters(n, "null") && !SameLetters(n, "false") && o.isNumber(n)
  }

  predicate IsPlain(s: string)
  {
    NoneOf(s, "\"\\")
  }

  /** Printed with a quote in front. */
  predicate InQuotes(v: Value)
  {
    v.Text? || v.Date?
  }

  /** Numbers, dates and texts are what the reader takes them for. */
  predicate Readable(o: Oracle, v: Value)
  {
    match v
    case Null => true
    case Boolean(_) => true
    case Number(n) => IsNumberText(o, n)
    case Text(t) => !o.isDate(Escape(t))
    case Date(d) => IsPlain(d) && o.isDate(d)
    case Bytes(b) => IsPlain(b)
    case Array(items) => ReadableItems(o, items)
    case Object(_, fields) => ReadableFields(o, fields)
  }

  predicate ReadableItems(o: Oracle, vs: Values)
  {
    vs.Item? ==> Readable(o, vs.head) && ReadableItems(o, vs.tail)
  }

  predicate ReadableFields(o: Oracle, fs: Fields)
  {
    fs.Field? ==> Readable(o, fs.value) && ReadableFields(o, fs.others)
  }

  /** An object without a type whose first property has a quoted value and is named as
      types and raw bytes are, in any case of letters. */
  predicate Misnamed(kind: Option<string>, fields: Fields)
  {
    kind.None? && fields.Field? && InQuotes(fields.value)
    && (IsTypeKey(Escape(fields.name)) || IsBinKey(Escape(fields.name)))
  }

  /** No such object, however deep. */
  predicate Clean(v: Value)
  {
    match v
    case Array(items) => CleanItems(items)
    case Object(kind, fields) => !Misnamed(kind, fields) && CleanFields(fields)
    case _ => true
  }

  predicate CleanItems(vs: Values)
  {
    vs.Item? ==> Clean(vs.head) && CleanItems(vs.tail)
  }

  predicate CleanFields(fs: Fields)
  {
    fs.Field? ==> Clean(fs.value) && CleanFields(fs.others)
  }

  /** What follows a value: a separator, or nothing. */
  predicate Ends(rest: string)
  {
    rest == "" || rest[0] in ",}]"
  }

  // ----- quoted texts ----------------------------------------------------------------------

  /** A backslash and what it covers, or characters that mean nothing to the reader. */
  lemma EscapeShape(c: char)
    ensures var e := EscapeChar(c);
      |e| <= 2 && e[0] != '\"' && (e[0] == '\\' ==> |e| == 2) && (|e| == 2 && e[0] != '\\' ==> e[1] != '\"' && e[1] != '\\')
  {
  }

  lemma SizePlain(c: char, rest: string)
    requires c != '\"' && c != '\\'
    ensures TextSize([c] + rest) == More(1, TextSize(rest))
  {
    assert ([c] + rest)[1..] == rest;
  }

  lemma SizeCovered(c: char, rest: string)
    ensures TextSize(['\\', c] + rest) == More(2, TextSize(rest))
  {
    assert (['\\', c] + rest)[2..] == rest;
  }

  lemma EscapeCharSkipped(c: char, rest: string)
    ensures TextSize(EscapeChar(c) + rest) == More(|EscapeChar(c)|, TextSize(rest))
  {
    hide EscapeChar, TextSize;
    var e := EscapeChar(c);
    EscapeShape(c);
    if |e| == 1 {
      assert e == [e[0]];
      SizePlain(e[0], rest);
    } else if e[0] == '\\' {
      assert e == ['\\', e[1]];
      SizeCovered(e[1], rest);
    } else {
      assert e + rest == [e[0]] + ([e[1]] + rest);
      SizePlain(e[0], [e[1]] + rest);
      SizePlain(e[1], rest);
    }
  }

  lemma {:induction false} EscapedSize(s: string, rest: string)
    ensures TextSize(Escape(s) + "\"" + rest) == Some(|Escape(s)|)
    decreases |s|
  {
    hide EscapeChar;
    if s == "" {
      assert Escape(s) + "\"" + rest == "\"" + rest;
    } else {
      var later := Escape(s[1..]) + "\"" + rest;
      assert Escape(s) + "\"" + rest == EscapeChar(s[0]) + later;
      EscapeCharSkipped(s[0], later);
      EscapedSize(s[1..], rest);
    }
  }

  lemma {:induction false} PlainSize(s: string, rest: string)
    requires IsPlain(s)
    ensures TextSize(s + "\"" + rest) == Some(|s|)
    decreases |s|
  {
    if s == "" {
      assert s + "\"" + rest == "\"" + rest;
    } else {
      assert (s + "\"" + rest)[1..] == s[1..] + "\"" + rest;
      PlainSize(s[1..], rest);
    }
  }

  /** A quoted text is found whole, and what is behind it stays. */
  lemma StringFound(text: string, rest: string)
    requires TextSize(text + "\"" + rest) == Some(|text|)
    ensures ToString("\"" + text + "\"" + rest) == Jump(true, text, "\"" + text + "\"" + rest)
    ensures Drop("\"" + text + "\"" + rest, |text| + 2) == rest
  {
    hide TextSize;
    var s := "\"" + text + "\"" + rest;
    assert s[1..] == text + "\"" + rest;
    assert s[1..|text| + 1] == text;
  }

  // ----- the first character of a value ---------------------------------------------------------

  predicate Begins(s: string)
  {
    s != "" && !IsSpace(s[0]) && s[0] !in ",}]"
  }

  lemma PrintBegins(o: Oracle, v: Value, rest: string)
    requires Readable(o, v)
    ensures Begins(Print(v) + rest)
    ensures Print(v)[..1] == "\"" <==> InQuotes(v)
  {
    hide ReadableItems, ReadableFields, PrintItems, PrintFields, Escape;
    var s := Print(v);
    assert s != "" && (s + rest)[0] == s[0];
    assert s[..1] == [s[0]];
  }

  lemma TrimNothing(s: string)
    requires s != "" ==> !IsSpace(s[0])
    ensures Trim(s) == s
  {
  }

  // ----- values that are not containers ------------------------------------------------------------

  lemma TokenBehind(n: string, rest: string)
    requires NoneOf(n, ",}]") && Ends(rest)
    ensures TokenSize(n + rest) == |n|
    decreases |n|
  {
    if n == "" {
      assert n + rest == rest;
    } else {
      assert (n + rest)[1..] == n[1..] + rest;
      TokenBehind(n[1..], rest);
    }
  }

  /** A bare token is read up to the separator. */
  lemma BareText(o: Oracle, n: string, rest: string)
    requires n != "" && NoneOf(n, ",}]") && !IsSpace(n[|n| - 1]) && Ends(rest)
    ensures TrimRight((n + rest)[..1 + TokenSize((n + rest)[1..])]) == n
  {
    TokenBehind(n[1..], rest);
    assert (n + rest)[1..] == n[1..] + rest;
    assert (n + rest)[..|n|] == n;
  }

  lemma ReadsNumber(o: Oracle, n: string, rest: string)
    requires IsNumberText(o, n) && Ends(rest)
    ensures ReadNext(o, n + rest) == Read(true, [WriteNumber(n)], rest)
  {
    hide TrimRight, TokenSize, SameLetters;
    var s := n + rest;
    assert s[0] == n[0] && n[0] !in ",{}[]\"";
    TrimNothing(s);
    BareText(o, n, rest);
    assert Follow(o, s) == Following(Num, n, s);
    assert Drop(s, |n|) == rest;
  }

  lemma WordFollows(o: Oracle, word: string, rest: string)
    requires word in {"true", "false", "null"} && Ends(rest)
    ensures Follow(o, word + rest) == Following(if word == "null" then Nil else Truth(word == "true"), word, word + rest)
  {
    hide TrimRight, TokenSize, SameLetters, Ends;
    var s := word + rest;
    TrimNothing(s);
    BareText(o, word, rest);
    WordsDiffer();
    assert Follow(o, s) == Bare(o, s) by {
      hide Bare;
      assert s[0] == word[0];
    }
  }

  lemma ReadsWord(o: Oracle, word: string, rest: string)
    requires word in {"true", "false", "null"} && Ends(rest)
    ensures ReadNext(o, word + rest)
      == Read(true, [if word == "null" then WriteNull else WriteBoolean(word == "true")], rest)
  {
    hide Follow;
    WordFollows(o, word, rest);
    assert Drop(word + rest, |word|) == rest;
  }

  lemma WordsDiffer()
    ensures SameLetters("true", "true") && SameLetters("null", "null") && SameLetters("false", "false")
    ensures !SameLetters("null", "true") && !SameLetters("false", "true") && !SameLetters("false", "null")
  {
    assert ToLower("null"[0]) != ToLower("true"[0]);
  }

  lemma ReadsQuoted(o: Oracle, text: string, rest: string)
    requires TextSize(text + "\"" + rest) == Some(|text|)
    ensures ReadNext(o, "\"" + text + "\"" + rest)
      == Read(true, [if o.isDate(text) then WriteDate(text) else WriteString(text)], rest)
  {
    hide TextSize, ToString;
    var s := "\"" + text + "\"" + rest;
    StringFound(text, rest);
    TrimNothing(s);
    assert Follow(o, s) == Following(if o.isDate(text) then DateText else Str, text, s);
  }

  // ----- counting ------------------------------------------------------------------------------

  lemma CountsOn(s: string, t: Tally, rest: string)
    requires CountTurn(s, t).Go? && s[CountTurn(s, t).moved..] == rest
    ensures CountFrom(s, t) == CountFrom(rest, CountTurn(s, t).t)
  {
    hide CountTurn;
  }

  lemma CountsPlain(c: char, rest: string, t: Tally)
    requires c !in ",{}[]\""
    ensures CountFrom([c] + rest, t) == CountFrom(rest, Counted(if IsSpace(c) then t else t.(nothing := false)))
  {
    hide CountFrom, Counted, TextSize, IsSpace;
    CountsOn([c] + rest, t, rest);
  }

  lemma {:induction false} CountsMore(n: string, rest: string, t: Tally)
    requires NoneOf(n, ",{}[]\"") && !t.nothing && Counted(t) == t
    ensures CountFrom(n + rest, t) == CountFrom(rest, t)
    decreases |n|
  {
    hide CountFrom;
    if n == "" {
      assert n + rest == rest;
    } else {
      assert n[0] !in ",{}[]\"";
      CountsPlain(n[0], n[1..] + rest, t);
      assert n + rest == [n[0]] + (n[1..] + rest);
      CountsMore(n[1..], rest, t);
    }
  }

  /** A bare token is one thing. */
  lemma CountsToken(n: string, rest: string, t: Tally)
    requires n != "" && NoneOf(n, ",{}[]\"") && !IsSpace(n[0])
    ensures CountFrom(n + rest, t) == CountFrom(rest, Counted(t.(nothing := false)))
  {
    hide CountFrom;
    assert n[0] !in ",{}[]\"";
    CountsPlain(n[0], n[1..] + rest, t);
    assert n + rest == [n[0]] + (n[1..] + rest);
    CountsMore(n[1..], rest, Counted(t.(nothing := false)));
  }

  lemma CountsQuoted(text: string, rest: string, t: Tally)
    requires TextSize(text + "\"" + rest) == Some(|text|)
    ensures CountFrom("\"" + text + "\"" + rest, t) == CountFrom(rest, Counted(t.(nothing := false)))
  {
    hide CountFrom, TextSize, Counted;
    var s := "\"" + text + "\"" + rest;
    assert s[1..] == text + "\"" + rest;
    assert s[|text| + 2..] == rest;
    CountsOn(s, t, rest);
  }

  /** One structural character. */
  lemma CountsOpen(c: char, rest: string, t: Tally)
    requires c == '{' || c == '['
    ensures CountFrom([c] + rest, t) == CountFrom(rest, t.(inner := t.inner + 1, nothing := true))
  {
    hide CountFrom, TextSize;
    CountsOn([c] + rest, t, rest);
  }

  lemma CountsClose(c: char, rest: string, t: Tally)
    requires (c == '}' || c == ']') && t.inner > 0
    ensures CountFrom([c] + rest, t) == CountFrom(rest, Counted(t.(inner := t.inner - 1, nothing := false)))
  {
    hide CountFrom, TextSize, Counted;
    CountsOn([c] + rest, t, rest);
  }

  function Comma(t: Tally): Tally
  {
    t.(nothing := true, done := if t.inner == 0 then false else t.done)
  }

  lemma CountsComma(rest: string, t: Tally)
    requires !t.nothing
    ensures CountFrom("," + rest, t) == CountFrom(rest, Comma(t))
  {
    hide CountFrom, TextSize;
    CountsOn("," + rest, t, rest);
  }

  function TallyItems(vs: Values, first: bool, t: Tally): Tally
  {
    if vs.NoValue? then t
    else TallyItems(vs.tail, false, Counted((if first then t else Comma(t)).(nothing := false)))
  }

  lemma {:induction false} TallyInside(vs: Values, first: bool, t: Tally)
    requires t.inner > 0
    ensures TallyItems(vs, first, t) == if vs.NoValue? then t else t.(nothing := false)
    decreases vs
  {
    if vs.Item? {
      TallyInside(vs.tail, false, t.(nothing := false));
    }
  }

  lemma {:induction false} TallyTop(vs: Values, first: bool, t: Tally)
    requires t.inner == 0 && (first ==> !t.done)
    ensures TallyItems(vs, first, t).count == t.count + Length(vs)
    ensures TallyItems(vs, first, t).inner == 0
    decreases vs
  {
    if vs.Item? {
      TallyTop(vs.tail, false, Tally(0, false, true, t.count + 1));
    }
  }

  /** Whatever a value holds, the counter sees one thing. */
  lemma {:induction false} CountsValue(o: Oracle, v: Value, rest: string, t: Tally)
    requires Readable(o, v)
    ensures CountFrom(Print(v) + rest, t) == CountFrom(rest, Counted(t.(nothing := false)))
    decreases v, 0
  {
    hide CountFrom, Escape, Counted, TextSize;
    match v
    case Null => CountsToken("null", rest, t);
    case Boolean(b) => CountsToken(Print(v), rest, t);
    case Number(n) => CountsToken(n, rest, t);
    case Text(text) =>
      EscapedSize(text, rest);
      CountsQuoted(Escape(text), rest, t);
    case Date(d) =>
      PlainSize(d, rest);
      CountsQuoted(d, rest, t);
    case Bytes(b) =>
      CountsBytes(b, rest, t);
    case Array(items) =>
      CountsArray(o, items, rest, t);
    case Object(kind, fields) =>
      CountsObject(o, kind, fields, rest, t);
  }

  lemma CountsBytes(b: string, rest: string, t: Tally)
    requires IsPlain(b)
    ensures CountFrom("{\"__bin\":\"" + b + "\"}" + rest, t) == CountFrom(rest, Counted(t.(nothing := false)))
  {
    hide CountFrom, TextSize;
    var t1 := t.(inner := t.inner + 1, nothing := true);
    var r3 := "}" + rest;
    var r2 := "\"" + b + "\"" + r3;
    var r1 := ":" + r2;
    assert "{\"__bin\":\"" + b + "\"}" + rest == ['{'] + ("\"" + "__bin" + "\"" + r1);
    CountsOpen('{', "\"" + "__bin" + "\"" + r1, t);
    PlainSize("__bin", r1);
    CountsQuoted("__bin", r1, t1);
    CountsToken(":", r2, t1.(nothing := false));
    PlainSize(b, r3);
    CountsQuoted(b, r3, t1.(nothing := false));
    CountsClose('}', rest, t1.(nothing := false));
  }

  lemma {:induction false} CountsItems(o: Oracle, vs: Values, first: bool, rest: string, t: Tally)
    requires ReadableItems(o, vs) && (!first ==> !t.nothing)
    ensures CountFrom(PrintItems(vs, first) + rest, t) == CountFrom(rest, TallyItems(vs, first, t))
    decreases vs, 1
  {
    hide CountFrom, Readable, Print;
    if vs.NoValue? {
      assert PrintItems(vs, first) + rest == rest;
    } else {
      var t1 := if first then t else Comma(t);
      var r1 := PrintItems(vs.tail, false) + rest;
      assert PrintItems(vs, first) + rest == (if first then "" else ",") + (Print(vs.head) + r1);
      if first {
        assert "" + (Print(vs.head) + r1) == Print(vs.head) + r1;
      } else {
        CountsComma(Print(vs.head) + r1, t);
      }
      CountsValue(o, vs.head, r1, t1);
      CountsItems(o, vs.tail, false, rest, Counted(t1.(nothing := false)));
    }
  }

  lemma {:induction false} CountsArray(o: Oracle, items: Values, rest: string, t: Tally)
    requires ReadableItems(o, items)
    ensures CountFrom(Print(Array(items)) + rest, t) == CountFrom(rest, Counted(t.(nothing := false)))
    decreases items, 2
  {
    hide CountFrom, Readable;
    var t1 := t.(inner := t.inner + 1, nothing := true);
    var close := [']'] + rest;
    assert Print(Array(items)) + rest == ['['] + (PrintItems(items, true) + close);
    CountsOpen('[', PrintItems(items, true) + close, t);
    CountsItems(o, items, true, close, t1);
    TallyInside(items, true, t1);
    CountsClose(']', rest, TallyItems(items, true, t1));
  }

  lemma {:induction false} CountsField(o: Oracle, name: string, v: Value, rest: string, t: Tally)
    requires Readable(o, v) && t.inner > 0
    ensures CountFrom(Quoted(name) + ":" + Print(v) + rest, t) == CountFrom(rest, t.(nothing := false))
    decreases v, 1
  {
    hide CountFrom, Readable, Escape, TextSize, Print;
    var r2 := Print(v) + rest;
    var r1 := ":" + r2;
    assert Quoted(name) + ":" + Print(v) + rest == "\"" + Escape(name) + "\"" + r1;
    EscapedSize(name, r1);
    CountsQuoted(Escape(name), r1, t);
    CountsToken(":", r2, t.(nothing := false));
    CountsValue(o, v, rest, t.(nothing := false));
  }

  lemma {:induction false} CountsFields(o: Oracle, fs: Fields, first: bool, rest: string, t: Tally)
    requires ReadableFields(o, fs) && t.inner > 0 && (!first ==> !t.nothing)
    ensures CountFrom(PrintFields(fs, first) + rest, t) == CountFrom(rest, if fs.NoField? then t else t.(nothing := false))
    decreases fs, 1
  {
    hide CountFrom, Readable, Quoted, Print;
    if fs.NoField? {
      assert PrintFields(fs, first) + rest == rest;
    } else {
      var t1 := if first then t else Comma(t);
      var r1 := PrintFields(fs.others, false) + rest;
      var field := Quoted(fs.name) + ":" + Print(fs.value) + r1;
      assert PrintFields(fs, first) + rest == (if first then "" else ",") + field;
      if first {
        assert "" + field == field;
      } else {
        CountsComma(field, t);
      }
      CountsField(o, fs.name, fs.value, r1, t1);
      CountsFields(o, fs.others, false, rest, t1.(nothing := false));
    }
  }

  lemma {:induction false} CountsObject(o: Oracle, kind: Option<string>, fields: Fields, rest: string, t: Tally)
    requires ReadableFields(o, fields)
    ensures CountFrom(Print(Object(kind, fields)) + rest, t) == CountFrom(rest, Counted(t.(nothing := false)))
    decreases fields, 2
  {
    hide CountFrom, Readable, Escape, TextSize;
    var t1 := t.(inner := t.inner + 1, nothing := true);
    var close := ['}'] + rest;
    var body := PrintFields(fields, kind.None?) + close;
    if kind.Some? {
      assert Print(Object(kind, fields)) + rest == ['{'] + (Quoted("__type") + ":" + (Quoted(kind.value) + body)) by {
        hide Quoted;
        TypedText(kind.value, fields, rest);
        assert body == PrintFields(fields, false) + "}" + rest;
      }
      CountsOpen('{', Quoted("__type") + ":" + (Quoted(kind.value) + body), t);
      CountsType(kind.value, body, t1);
      CountsFields(o, fields, false, close, t1.(nothing := false));
      CountsClose('}', rest, t1.(nothing := false));
    } else {
      assert Print(Object(kind, fields)) + rest == ['{'] + body;
      CountsOpen('{', body, t);
      CountsFields(o, fields, true, close, t1);
      CountsClose('}', rest, if fields.NoField? then t1 else t1.(nothing := false));
    }
  }

  lemma CountsType(kind: string, rest: string, t: Tally)
    requires t.inner > 0
    ensures CountFrom(Quoted("__type") + ":" + (Quoted(kind) + rest), t) == CountFrom(rest, t.(nothing := false))
  {
    hide CountFrom, Escape, TextSize;
    var r2 := "\"" + Escape(kind) + "\"" + rest;
    var r1 := ":" + r2;
    assert Quoted("__type") + ":" + (Quoted(kind) + rest) == "\"" + Escape("__type") + "\"" + r1;
    EscapedSize("__type", r1);
    CountsQuoted(Escape("__type"), r1, t);
    CountsToken(":", r2, t.(nothing := false));
    EscapedSize(kind, rest);
    CountsQuoted(Escape(kind), rest, t.(nothing := false));
  }

  /** The look-ahead counter finds the true number of elements, however they nest. */
  lemma CountIsExact(o: Oracle, vs: Values, rest: string)
    requires ReadableItems(o, vs)
    ensures CountElements(PrintItems(vs, true) + "]" + rest) == Count(Length(vs), false)
  {
    hide CountFrom, Readable;
    var close := "]" + rest;
    assert PrintItems(vs, true) + "]" + rest == PrintItems(vs, true) + close;
    ItemsBegin(o, vs, close);
    TrimNothing(PrintItems(vs, true) + close);
    var t := Tally(0, true, false, 0);
    CountsItems(o, vs, true, close, t);
    TallyTop(vs, true, t);
    CountEnds(close, TallyItems(vs, true, t));
  }

  lemma CountEnds(s: string, t: Tally)
    requires s != "" && s[0] == ']' && t.inner == 0
    ensures CountFrom(s, t) == Count(t.count, false)
  {
  }

  lemma ItemsBegin(o: Oracle, vs: Values, rest: string)
    requires ReadableItems(o, vs) && rest != "" && !IsSpace(rest[0])
    ensures PrintItems(vs, true) + rest != "" && !IsSpace((PrintItems(vs, true) + rest)[0])
  {
    hide Readable, Print;
    if vs.Item? {
      PrintBegins(o, vs.head, PrintItems(vs.tail, false) + rest);
      assert PrintItems(vs, true) + rest == "" + Print(vs.head) + PrintItems(vs.tail, false) + rest;
      assert "" + Print(vs.head) == Print(vs.head);
      assert PrintItems(vs, true) + rest == Print(vs.head) + (PrintItems(vs.tail, false) + rest);
    } else {
      assert PrintItems(vs, true) + rest == rest;
    }
  }

  // ----- reading ----------------------------------------------------------------------------------

  lemma CommaSkipped(o: Oracle, s: string)
    requires Begins(s)
    ensures ReadNext(o, "," + s) == ReadNext(o, s)
  {
    hide ReadOne;
    TrimNothing("," + s);
    TrimNothing(s);
    assert ("," + s)[1..] == s;
    assert Follow(o, "," + s) == Follow(o, s);
  }

  lemma {:induction false} ReadsValue(o: Oracle, v: Value, rest: string)
    requires Readable(o, v) && Clean(v) && Ends(rest)
    ensures ReadNext(o, Print(v) + rest) == Read(true, AllEscaped(Calls(v)), rest)
    decreases v, 0
  {
    hide ReadNext, Escape, TextSize, Ends;
    match v
    case Null => ReadsWord(o, "null", rest);
    case Boolean(b) => ReadsWord(o, if b then "true" else "false", rest);
    case Number(n) => ReadsNumber(o, n, rest);
    case Text(text) =>
      EscapedSize(text, rest);
      ReadsQuoted(o, Escape(text), rest);
    case Date(d) =>
      PlainSize(d, rest);
      ReadsQuoted(o, d, rest);
    case Bytes(b) =>
      ReadsBytes(o, b, rest);
    case Array(items) =>
      ReadsArray(o, items, rest);
    case Object(kind, fields) =>
      ReadsObject(o, kind, fields, rest);
  }

  lemma {:induction false} ReadsItems(o: Oracle, vs: Values, first: bool, rest: string)
    requires ReadableItems(o, vs) && CleanItems(vs) && Ends(rest)
    ensures ReadItems(o, PrintItems(vs, first) + rest, Length(vs)) == Read(true, AllEscaped(ItemCalls(vs)), rest)
    decreases vs, 1
  {
    hide ReadNext, Readable, Clean, Print, Calls, AllEscaped, Begins;
    if vs.NoValue? {
      assert PrintItems(vs, first) + rest == rest;
      assert AllEscaped([]) == [] by { NoneEscaped(); }
    } else {
      var r1 := PrintItems(vs.tail, false) + rest;
      assert PrintItems(vs, first) + rest == (if first then "" else ",") + (Print(vs.head) + r1);
      if first {
        assert "" + (Print(vs.head) + r1) == Print(vs.head) + r1;
      } else {
        PrintBegins(o, vs.head, r1);
        CommaSkipped(o, Print(vs.head) + r1);
      }
      MoreItemsEnd(vs.tail, rest);
      ReadsValue(o, vs.head, r1);
      ReadsItems(o, vs.tail, false, rest);
      EscapedAppend(Calls(vs.head), ItemCalls(vs.tail));
      assert AllEscaped(Calls(vs.head)) + [] == AllEscaped(Calls(vs.head));
    }
  }

  lemma NoneEscaped()
    ensures AllEscaped([]) == []
  {
  }

  lemma MoreItemsEnd(vs: Values, rest: string)
    requires Ends(rest)
    ensures Ends(PrintItems(vs, false) + rest)
  {
    hide Print;
    if vs.NoValue? {
      assert PrintItems(vs, false) + rest == rest;
    } else {
      assert PrintItems(vs, false) == "," + Print(vs.head) + PrintItems(vs.tail, false);
    }
  }

  lemma MoreFieldsEnd(fs: Fields, rest: string)
    requires Ends(rest)
    ensures Ends(PrintFields(fs, false) + rest)
  {
    hide Print, Quoted;
    if fs.NoField? {
      assert PrintFields(fs, false) + rest == rest;
    } else {
      assert PrintFields(fs, false) == "," + Quoted(fs.name) + ":" + Print(fs.value) + PrintFields(fs.others, false);
    }
  }

  /** A container's mark leads to its reader. */
  lemma ContainerFollows(o: Oracle, c: char, s: string)
    requires c == '{' || c == '['
    ensures ReadNext(o, [c] + s) == if c == '[' then ReadArray(o, s) else ReadFields(o, s, false, false)
  {
    hide ReadArray, ReadFields;
    TrimNothing([c] + s);
    assert ([c] + s)[1..] == s;
  }

  lemma ArrayText(items: Values, rest: string)
    ensures Print(Array(items)) + rest == ['['] + (PrintItems(items, true) + ("]" + rest))
    ensures PrintItems(items, true) + ("]" + rest) == PrintItems(items, true) + "]" + rest
  {
    hide PrintItems;
  }

  lemma ArrayCalls(items: Values)
    ensures AllEscaped(Calls(Array(items))) == [BeginArray(Length(items))] + AllEscaped(ItemCalls(items)) + [EndArray]
  {
    hide ItemCalls;
    EscapedAppend([BeginArray(Length(items))] + ItemCalls(items), [EndArray]);
    EscapedAppend([BeginArray(Length(items))], ItemCalls(items));
  }

  lemma {:induction false} ReadsArray(o: Oracle, items: Values, rest: string)
    requires ReadableItems(o, items) && CleanItems(items)
    ensures ReadNext(o, Print(Array(items)) + rest) == Read(true, AllEscaped(Calls(Array(items))), rest)
    decreases items, 2
  {
    hide ReadNext, Readable, Clean, CountElements, ReadItems, Print, Calls, ItemCalls, AllEscaped, PrintItems, ReadableItems;
    var close := "]" + rest;
    var s := PrintItems(items, true) + close;
    ArrayText(items, rest);
    ContainerFollows(o, '[', s);
    CountIsExact(o, items, rest);
    ItemsBegin(o, items, close);
    TrimNothing(s);
    ReadsItems(o, items, true, close);
    TrimNothing(close);
    assert Drop(close, 1) == rest;
    ArrayCalls(items);
  }

  /** A name and a value, behind what began the object if anything did. */
  lemma {:induction false} ReadsProperty(o: Oracle, name: string, v: Value, begun: seq<Call>, more: string)
    requires Readable(o, v) && Clean(v) && Ends(more)
    ensures ReadProperty(o, name, Print(v) + more, begun, false)
      == With(begun + [PropertyName(name)] + AllEscaped(Calls(v)), ReadFields(o, more, true, false))
    decreases v, 1
  {
    hide ReadNext, Readable, Clean, ReadFields, Ends;
    ReadsValue(o, v, more);
  }

  /** The name of a property, up to its colon. */
  lemma KeyFound(name: string, r: string)
    ensures ToString(Quoted(name) + ":" + r) == Jump(true, Escape(name), Quoted(name) + ":" + r)
    ensures Trim(Drop(Quoted(name) + ":" + r, |Escape(name)| + 2)) == ":" + r
  {
    hide TextSize, Escape, ToString;
    assert Quoted(name) + ":" + r == "\"" + Escape(name) + "\"" + (":" + r);
    EscapedSize(name, ":" + r);
    StringFound(Escape(name), ":" + r);
    TrimNothing(":" + r);
  }

  /** Behind the comma, in an object that has begun. */
  lemma FieldStarted(o: Oracle, name: string, r: string)
    ensures ReadFields(o, "," + Quoted(name) + ":" + r, true, false) == ReadProperty(o, Escape(name), r, [], false)
  {
    hide ReadProperty, Escape, ToString;
    var s := Quoted(name) + ":" + r;
    assert "," + Quoted(name) + ":" + r == "," + s;
    TrimNothing("," + s);
    assert ("," + s)[1..] == s;
    assert s[0] == '\"';
    TrimNothing(s);
    KeyFound(name, r);
    assert (":" + r)[1..] == r;
  }

  /** The first one. */
  lemma FieldFirst(o: Oracle, name: string, r: string)
    requires r != "" && !IsSpace(r[0])
    requires r[0] == '\"' ==> !IsTypeKey(Escape(name)) && !IsBinKey(Escape(name))
    ensures ReadFields(o, Quoted(name) + ":" + r, false, false) == ReadProperty(o, Escape(name), r, [BeginObject(None)], false)
  {
    hide ReadProperty, Escape, ToString, IsTypeKey, IsBinKey;
    var s := Quoted(name) + ":" + r;
    assert s[0] == '\"';
    TrimNothing(s);
    KeyFound(name, r);
    assert (":" + r)[1..] == r;
    TrimNothing(r);
  }

  lemma ObjectEnds(o: Oracle, started: bool, rest: string)
    ensures ReadFields(o, "}" + rest, started, false)
      == Read(true, (if started then [] else [BeginObject(None)]) + [EndObject], rest)
  {
    TrimNothing("}" + rest);
    assert Drop("}" + rest, 1) == rest;
  }

  /** What a property list adds: its calls, and the end of the object. */
  lemma {:induction false} ReadsFields(o: Oracle, fs: Fields, rest: string)
    requires ReadableFields(o, fs) && CleanFields(fs)
    ensures ReadFields(o, PrintFields(fs, false) + "}" + rest, true, false)
      == Read(true, AllEscaped(FieldCalls(fs)) + [EndObject], rest)
    decreases fs, 1
  {
    hide ReadFields, ReadProperty, Readable, Clean, Quoted, Escape, Print, Calls, AllEscaped;
    var close := "}" + rest;
    if fs.NoField? {
      assert PrintFields(fs, false) + "}" + rest == close;
      ObjectEnds(o, true, rest);
      NoneEscaped();
    } else {
      var more := PrintFields(fs.others, false) + close;
      assert PrintFields(fs, false) + "}" + rest == "," + Quoted(fs.name) + ":" + (Print(fs.value) + more);
      FieldStarted(o, fs.name, Print(fs.value) + more);
      assert more == PrintFields(fs.others, false) + "}" + rest;
      MoreFieldsEnd(fs.others, close);
      ReadsProperty(o, Escape(fs.name), fs.value, [], more);
      ReadsFields(o, fs.others, rest);
      FieldEscaped(fs);
      FieldSum([PropertyName(Escape(fs.name))], AllEscaped(Calls(fs.value)), AllEscaped(FieldCalls(fs.others)), [EndObject]);
    }
  }

  lemma FieldEscaped(fs: Fields)
    requires fs.Field?
    ensures AllEscaped(FieldCalls(fs))
      == [PropertyName(Escape(fs.name))] + AllEscaped(Calls(fs.value)) + AllEscaped(FieldCalls(fs.others))
  {
    hide Escape, Calls;
    EscapedAppend([PropertyName(fs.name)] + Calls(fs.value), FieldCalls(fs.others));
    EscapedAppend([PropertyName(fs.name)], Calls(fs.value));
    assert AllEscaped([PropertyName(fs.name)]) == [PropertyName(Escape(fs.name))];
  }

  lemma FieldSum(a: seq<Call>, b: seq<Call>, c: seq<Call>, d: seq<Call>)
    ensures [] + a == a
    ensures a + b + (c + d) == a + b + c + d
  {
    assert a + b + (c + d) == a + b + c + d;
  }

  lemma {:induction false} ReadsObject(o: Oracle, kind: Option<string>, fields: Fields, rest: string)
    requires ReadableFields(o, fields) && Clean(Object(kind, fields))
    ensures ReadNext(o, Print(Object(kind, fields)) + rest) == Read(true, AllEscaped(Calls(Object(kind, fields))), rest)
    decreases fields, 3
  {
    hide ReadNext, ReadFields, Escape, AllEscaped;
    if kind.Some? {
      ReadsTyped(o, kind.value, fields, rest);
    } else if fields.NoField? {
      assert Print(Object(kind, fields)) + rest == ['{'] + ("}" + rest);
      ContainerFollows(o, '{', "}" + rest);
      ObjectEnds(o, false, rest);
      ObjectCalls(kind, fields);
      NoneEscaped();
      assert [BeginObject(None)] + [] + [EndObject] == [BeginObject(None)] + [EndObject];
    } else {
      ReadsUntyped(o, fields, rest);
    }
  }

  lemma ObjectCalls(kind: Option<string>, fields: Fields)
    ensures AllEscaped(Calls(Object(kind, fields)))
      == [Escaped(BeginObject(kind))] + AllEscaped(FieldCalls(fields)) + [EndObject]
  {
    hide Escape;
    EscapedAppend([BeginObject(kind)] + FieldCalls(fields), [EndObject]);
    EscapedAppend([BeginObject(kind)], FieldCalls(fields));
  }

  lemma {:induction false} ReadsUntyped(o: Oracle, fields: Fields, rest: string)
    requires ReadableFields(o, fields) && Clean(Object(None, fields)) && fields.Field?
    ensures ReadNext(o, Print(Object(None, fields)) + rest) == Read(true, AllEscaped(Calls(Object(None, fields))), rest)
    decreases fields, 1
  {
    hide ReadNext, ReadFields, ReadProperty, Escape, AllEscaped, Quoted, IsTypeKey, IsBinKey;
    var close := "}" + rest;
    var more := PrintFields(fields.others, false) + close;
    var value := Print(fields.value) + more;
    UntypedText(fields, rest);
    hide Print, Calls, PrintFields;
    ContainerFollows(o, '{', Quoted(fields.name) + ":" + value);
    PrintBegins(o, fields.value, more);
    FieldFirst(o, fields.name, value);
    MoreFieldsEnd(fields.others, close);
    ReadsProperty(o, Escape(fields.name), fields.value, [BeginObject(None)], more);
    assert more == PrintFields(fields.others, false) + "}" + rest;
    ReadsFields(o, fields.others, rest);
    UntypedCalls(fields);
  }

  lemma UntypedCalls(fields: Fields)
    requires fields.Field?
    ensures AllEscaped(Calls(Object(None, fields)))
      == [BeginObject(None)] + [PropertyName(Escape(fields.name))] + AllEscaped(Calls(fields.value))
         + (AllEscaped(FieldCalls(fields.others)) + [EndObject])
  {
    hide Calls, FieldCalls, AllEscaped, Escape;
    ObjectCalls(None, fields);
    FieldEscaped(fields);
    var o, a, b, c := [BeginObject(None)], [PropertyName(Escape(fields.name))], AllEscaped(Calls(fields.value)),
      AllEscaped(FieldCalls(fields.others));
    assert o + a + b + (c + [EndObject]) == o + (a + b + c) + [EndObject];
  }

  lemma UntypedText(fields: Fields, rest: string)
    requires fields.Field?
    ensures Print(Object(None, fields)) + rest
      == ['{'] + (Quoted(fields.name) + ":" + (Print(fields.value) + (PrintFields(fields.others, false) + ("}" + rest))))
  {
    hide Quoted;
    var value, others := Print(fields.value), PrintFields(fields.others, false);
    assert PrintFields(fields, true) == "" + Quoted(fields.name) + ":" + value + others;
    assert "" + Quoted(fields.name) == Quoted(fields.name);
    hide Print, PrintFields;
    var key := Quoted(fields.name) + ":";
    assert "{" + "" == ['{'];
    Braces(key, value, others, rest);
  }

  lemma Braces(a: string, b: string, c: string, rest: string)
    ensures ['{'] + (a + b + c) + "}" + rest == ['{'] + (a + (b + (c + ("}" + rest))))
  {
    assert a + b + c + "}" + rest == a + (b + (c + ("}" + rest)));
    assert ['{'] + (a + b + c) + "}" + rest == ['{'] + (a + b + c + "}" + rest);
  }

  lemma TypedText(kind: string, fields: Fields, rest: string)
    ensures Print(Object(Some(kind), fields)) + rest
      == ['{'] + (Quoted("__type") + ":" + (Quoted(kind) + (PrintFields(fields, false) + "}" + rest)))
  {
    hide Quoted, PrintFields;
    var more := PrintFields(fields, false);
    assert "{" + (Quoted("__type") + ":" + Quoted(kind)) + more + "}" + rest
      == ['{'] + (Quoted("__type") + ":" + (Quoted(kind) + (more + "}" + rest)));
  }

  lemma TypeKey()
    ensures Escape("__type") == "__type" && IsTypeKey("__type")
  {
    assert Escape("") == "";
    assert Escape("e") == "e";
    assert Escape("pe") == "pe";
    assert Escape("ype") == "ype";
    assert Escape("type") == "type";
    assert Escape("_type") == "_type";
  }

  /** The first property, named as a type or as raw bytes, with a quoted value. */
  lemma KeyBegins(o: Oracle, name: string, text: string, more: string)
    requires IsTypeKey(Escape(name)) || IsBinKey(Escape(name))
    requires TextSize(text + "\"" + more) == Some(|text|)
    ensures ReadFields(o, Quoted(name) + ":" + ("\"" + text + "\"" + more), false, false)
      == if IsTypeKey(Escape(name)) then With([BeginObject(Some(text))], ReadFields(o, more, true, false))
         else With([WriteByte(text)], ReadFields(o, more, false, true))
  {
    hide Escape, ToString, IsTypeKey, IsBinKey, TextSize, ReadProperty, ReadFields;
    var r := "\"" + text + "\"" + more;
    var s := Quoted(name) + ":" + r;
    assert s[0] == '\"';
    KeyFound(name, r);
    assert (":" + r)[1..] == r;
    TrimNothing(r);
    StringFound(text, more);
    Unstarted(o, s);
  }

  /** The property __type, when it comes first with a text, names the object's type. */
  lemma TypedBegins(o: Oracle, kind: string, more: string)
    ensures ReadFields(o, Quoted("__type") + ":" + (Quoted(kind) + more), false, false)
      == With([BeginObject(Some(Escape(kind)))], ReadFields(o, more, true, false))
  {
    hide Escape, IsTypeKey, IsBinKey, TextSize, ReadFields;
    TypeKey();
    EscapedSize(kind, more);
    KeyBegins(o, "__type", Escape(kind), more);
  }

  lemma {:induction false} ReadsTyped(o: Oracle, kind: string, fields: Fields, rest: string)
    requires ReadableFields(o, fields) && CleanFields(fields)
    ensures ReadNext(o, Print(Object(Some(kind), fields)) + rest)
      == Read(true, AllEscaped(Calls(Object(Some(kind), fields))), rest)
    decreases fields, 2
  {
    hide ReadNext, ReadFields, Escape, AllEscaped, Quoted, Print, Calls, PrintFields;
    var more := PrintFields(fields, false) + "}" + rest;
    TypedText(kind, fields, rest);
    ContainerFollows(o, '{', Quoted("__type") + ":" + (Quoted(kind) + more));
    TypedBegins(o, kind, more);
    ReadsFields(o, fields, rest);
    ObjectCalls(Some(kind), fields);
    var c := AllEscaped(FieldCalls(fields));
    assert [BeginObject(Some(Escape(kind)))] + (c + [EndObject]) == [BeginObject(Some(Escape(kind)))] + c + [EndObject];
  }

  lemma BinKey()
    ensures Escape("__bin") == "__bin" && IsBinKey("__bin") && !IsTypeKey("__bin")
  {
    assert Escape("") == "";
    assert Escape("n") == "n";
    assert Escape("in") == "in";
    assert Escape("bin") == "bin";
    assert Escape("_bin") == "_bin";
  }

  /** The property __bin, when it comes first with a text, stands for raw bytes. */
  lemma BinBegins(o: Oracle, b: string, more: string)
    requires IsPlain(b)
    ensures ReadFields(o, Quoted("__bin") + ":" + ("\"" + b + "\"" + more), false, false)
      == With([WriteByte(b)], ReadFields(o, more, false, true))
  {
    hide Escape, IsTypeKey, IsBinKey, TextSize, ReadFields;
    BinKey();
    PlainSize(b, more);
    KeyBegins(o, "__bin", b, more);
  }

  /** Raw bytes come back as raw bytes, and the object around them is not seen. */
  lemma ReadsBytes(o: Oracle, b: string, rest: string)
    requires IsPlain(b)
    ensures ReadNext(o, Print(Bytes(b)) + rest) == Read(true, AllEscaped(Calls(Bytes(b))), rest)
  {
    hide ReadNext, Escape, ReadField, ReadFields;
    var more := "}" + rest;
    BinKey();
    var s := Quoted("__bin") + ":" + ("\"" + b + "\"" + more);
    assert Print(Bytes(b)) + rest == ['{'] + s;
    ContainerFollows(o, '{', s);
    BinBegins(o, b, more);
    MuteEnds(o, rest);
    assert [WriteByte(b)] + [] == [WriteByte(b)];
  }

  lemma MuteEnds(o: Oracle, rest: string)
    ensures ReadFields(o, "}" + rest, false, true) == Read(true, [], rest)
  {
    TrimNothing("}" + rest);
    assert Drop("}" + rest, 1) == rest;
  }

  lemma Unstarted(o: Oracle, s: string)
    requires s != "" && s[0] == '\"'
    ensures ReadFields(o, s, false, false) == ReadField(o, s, false, false)
  {
    hide ReadField;
    TrimNothing(s);
  }

  // ----- the whole text --------------------------------------------------------------------------

  lemma {:induction false} ReadsAll(o: Oracle, vs: Values, first: bool)
    requires ReadableItems(o, vs) && CleanItems(vs)
    ensures ReadAll(o, PrintItems(vs, first)).calls == AllEscaped(ItemCalls(vs))
    ensures ReadAll(o, PrintItems(vs, first)).rest == ""
    decreases vs
  {
    hide ReadNext, Readable, Clean, Print, Calls, AllEscaped, Begins;
    if vs.NoValue? {
      NoneEscaped();
      NothingAhead(o);
    } else {
      var r1 := PrintItems(vs.tail, false);
      assert r1 + "" == r1;
      assert PrintItems(vs, first) == (if first then "" else ",") + (Print(vs.head) + r1);
      if first {
        assert "" + (Print(vs.head) + r1) == Print(vs.head) + r1;
      } else {
        PrintBegins(o, vs.head, r1);
        CommaSkipped(o, Print(vs.head) + r1);
      }
      MoreItemsEnd(vs.tail, "");
      ReadsValue(o, vs.head, r1);
      ReadsAll(o, vs.tail, false);
      EscapedAppend(Calls(vs.head), ItemCalls(vs.tail));
    }
  }

  lemma NothingAhead(o: Oracle)
    ensures ReadNext(o, "") == Read(false, [], "")
  {
  }

  lemma ContentFound(o: Oracle, vs: Values)
    requires ReadableItems(o, vs)
    ensures Content("[" + PrintItems(vs, true) + "]") == Some(PrintItems(vs, true))
  {
    hide Readable, PrintItems, Trim, TrimRight, ReadableItems;
    var s := PrintItems(vs, true) + "]";
    assert "[" + PrintItems(vs, true) + "]" == "[" + s;
    ItemsBegin(o, vs, "]");
    TrimNothing("[" + s);
    assert ("[" + s)[1..] == s;
    TrimNothing(s);
    EndNotBlank(s);
    assert s[..|s| - 1] == PrintItems(vs, true);
  }

  lemma EndNotBlank(s: string)
    requires s != "" && !IsSpace(s[|s| - 1])
    ensures TrimRight(s) == s
  {
  }
}
