/** JSON values as the calls a DataWriter receives, and the text they stand for. */
module Json {
  import opened Options

  /** The calls of the DataWriter interface. Numbers, dates and raw bytes are
      carried as the text they are written in. */
  datatype Call =
    | BeginObject(kind: Option<string>)
    | PropertyName(name: string)
    | EndObject
    | BeginArray(count: nat)
    | EndArray
    | WriteNumber(number: string)
    | WriteString(text: string)
    | WriteBoolean(value: bool)
    | WriteNull
    | WriteDate(date: string)
    | WriteByte(base64: string)

  datatype Value =
    | Null
    | Boolean(b: bool)
    | Number(number: string)
    | Text(text: string)
    | Date(date: string)
    | Bytes(base64: string)
    | Array(items: Values)
    | Object(kind: Option<string>, fields: Fields)

  datatype Values = NoValue | Item(head: Value, tail: Values)

  datatype Fields = NoField | Field(name: string, value: Value, others: Fields)

  function Length(vs: Values): nat
  {
    if vs.NoValue? then 0 else 1 + Length(vs.tail)
  }

  // ----- strings ------------------------------------------------------------------

  /** A byte above 0x7F becomes two, as for Latin-1 but with the sign of a signed
      char carried into the first. */
  function TwoBytes(c: char): (s: string)
    ensures |s| == 2
  {
    var low := c as int % 0x80;
    [(0xDE + low / 0x40) as char, (0x80 + low % 0x40) as char]
  }

  function EscapeChar(c: char): (s: string)
    ensures |s| > 0
  {
    if c == '\"' || c == '\\' then ['\\', c]
    else if c == '\n' then "\\n"
    else if c == '\U{8}' then "\\b"
    else if c == '\U{c}' then "\\f"
    else if c == '\r' then "\\r"
    else if c == '\t' then "\\t"
    else if c as int < 0x80 then [c]
    else TwoBytes(c)
  }

  function Escape(s: string): string
  {
    if s == "" then "" else EscapeChar(s[0]) + Escape(s[1..])
  }

  /** What a character behind a backslash stands for (section 7 of RFC 8259), if it is one
      of those that stand for a character by themselves. */
  function Meaning(c: char): Option<char>
  {
    match c
    case '\"' => Some('\"')
    case '\\' => Some('\\')
    case '/' => Some('/')
    case 'b' => Some(8 as char)
    case 'f' => Some(12 as char)
    case 'n' => Some(10 as char)
    case 'r' => Some(13 as char)
    case 't' => Some(9 as char)
    case _ => None
  }

  /** The character two bytes stand for in UTF-8 (section 3 of RFC 3629): 110xxxxx 10xxxxxx. */
  function TwoByteChar(a: char, b: char): Option<char>
  {
    if 0xC0 <= a as int < 0xE0 && 0x80 <= b as int < 0xC0 then
      Some(((a as int - 0xC0) * 0x40 + (b as int - 0x80)) as char)
    else None
  }

  /** The characters a string stands for, if it is well-formed. */
  function Unescape(s: string): Option<string>
  {
    if s == "" then Some("")
    else if s[0] == '\"' || s[0] as int < 0x20 then None
    else if s[0] != '\\' && s[0] as int < 0x80 then Before(Some(s[0]), Unescape(s[1..]))
    else if |s| == 1 then None
    else Before(if s[0] == '\\' then Meaning(s[1]) else TwoByteChar(s[0], s[1]), Unescape(s[2..]))
  }

  function Before(c: Option<char>, later: Option<string>): Option<string>
  {
    if c.Some? && later.Some? then Some([c.value] + later.value) else None
  }

  /** A control character for which there is no letter. */
  predicate BareControl(c: char)
  {
    c as int < 0x20 && c as int !in {8, 9, 10, 12, 13}
  }

  /** A byte above 0x7F counts as a negative char: its sign makes it 0x700 more. */
  function Widened(c: char): char
  {
    if c as int < 0x80 then c else (0x780 + c as int % 0x80) as char
  }

  function AllWidened(s: string): (r: string)
    ensures |r| == |s|
  {
    seq(|s|, i requires 0 <= i < |s| => Widened(s[i]))
  }

  lemma UnescapesChar(c: char, later: string)
    ensures Unescape(EscapeChar(c) + later)
      == if BareControl(c) then None else Before(Some(Widened(c)), Unescape(later))
  {
    var s := EscapeChar(c) + later;
    if |EscapeChar(c)| == 1 {
      assert s[0] == c && s[1..] == later;
    } else {
      assert s[0] == EscapeChar(c)[0] && s[1] == EscapeChar(c)[1] && s[2..] == later;
    }
  }

  /** What is written of a text stands for it, but for characters above 0x7F, each of which
      comes out as another; and it stands for anything if and only if the text has no control
      character that is written as it is. */
  lemma {:induction false} EscapeMeans(s: string)
    ensures Unescape(Escape(s))
      == if exists i :: 0 <= i < |s| && BareControl(s[i]) then None else Some(AllWidened(s))
  {
    hide EscapeChar, Widened;
    if s != "" {
      UnescapesChar(s[0], Escape(s[1..]));
      EscapeMeans(s[1..]);
      assert AllWidened(s) == [Widened(s[0])] + AllWidened(s[1..]);
      hide Unescape, Escape;
      if exists i :: 0 <= i < |s[1..]| && BareControl(s[1..][i]) {
        var i :| 0 <= i < |s[1..]| && BareControl(s[1..][i]);
        assert BareControl(s[i + 1]);
      }
      if !BareControl(s[0]) && exists i :: 0 <= i < |s| && BareControl(s[i]) {
        var i :| 0 <= i < |s| && BareControl(s[i]);
        assert BareControl(s[1..][i - 1]);
      }
      assert Escape(s) == EscapeChar(s[0]) + Escape(s[1..]) by {
        EscapeUnfold(s);
      }
    } else {
      assert AllWidened(s) == "";
    }
  }

  lemma EscapeUnfold(s: string)
    requires s != ""
    ensures Escape(s) == EscapeChar(s[0]) + Escape(s[1..])
  {
    hide EscapeChar;
  }

  /** A text of bytes comes back exactly if it is plain characters and controls with a letter. */
  lemma EscapeKeepsExactly(s: string)
    requires forall i :: 0 <= i < |s| ==> s[i] as int < 0x100
    ensures Unescape(Escape(s)) == Some(s) <==> forall i :: 0 <= i < |s| ==> s[i] as int < 0x80 && !BareControl(s[i])
  {
    hide Unescape, Escape;
    EscapeMeans(s);
    if AllWidened(s) == s {
      assert forall i :: 0 <= i < |s| ==> s[i] == Widened(s[i]);
    }
    if forall i :: 0 <= i < |s| ==> s[i] as int < 0x80 {
      assert AllWidened(s) == s;
    }
  }

  function Quoted(s: string): string
  {
    "\"" + Escape(s) + "\""
  }

  // ----- compact text: no blank, a comma between any two values --------------------

  function Print(v: Value): (s: string)
    ensures |s| > 0 || v.Number?
  {
    match v
    case Null => "null"
    case Boolean(b) => if b then "true" else "false"
    case Number(n) => n
    case Text(t) => Quoted(t)
    case Date(d) => "\"" + d + "\""
    case Bytes(b) => "{\"__bin\":\"" + b + "\"}"
    case Array(items) => "[" + PrintItems(items, true) + "]"
    case Object(kind, fields) =>
      "{" + (if kind.Some? then Quoted("__type") + ":" + Quoted(kind.value) else "") + PrintFields(fields, kind.None?) + "}"
  }

  function PrintItems(vs: Values, first: bool): string
  {
    if vs.NoValue? then "" else (if first then "" else ",") + Print(vs.head) + PrintItems(vs.tail, false)
  }

  function PrintFields(fs: Fields, first: bool): string
  {
    if fs.NoField? then ""
    else (if first then "" else ",") + Quoted(fs.name) + ":" + Print(fs.value) + PrintFields(fs.others, false)
  }

  // ----- the calls that write a value -------------------------------------------------

  function Calls(v: Value): seq<Call>
  {
    match v
    case Null => [WriteNull]
    case Boolean(b) => [WriteBoolean(b)]
    case Number(n) => [WriteNumber(n)]
    case Text(t) => [WriteString(t)]
    case Date(d) => [WriteDate(d)]
    case Bytes(b) => [WriteByte(b)]
    case Array(items) => [BeginArray(Length(items))] + ItemCalls(items) + [EndArray]
    case Object(kind, fields) => [BeginObject(kind)] + FieldCalls(fields) + [EndObject]
  }

  function ItemCalls(vs: Values): seq<Call>
  {
    if vs.NoValue? then [] else Calls(vs.head) + ItemCalls(vs.tail)
  }

  function FieldCalls(fs: Fields): seq<Call>
  {
    if fs.NoField? then [] else [PropertyName(fs.name)] + Calls(fs.value) + FieldCalls(fs.others)
  }

  /** The same call with its strings in escaped form: what the reader gives. */
  function Escaped(c: Call): Call
  {
    match c
    case BeginObject(kind) => BeginObject(if kind.Some? then Some(Escape(kind.value)) else None)
    case PropertyName(name) => PropertyName(Escape(name))
    case WriteString(t) => WriteString(Escape(t))
    case _ => c
  }

  function AllEscaped(cs: seq<Call>): (r: seq<Call>)
    ensures |r| == |cs|
  {
    seq(|cs|, i requires 0 <= i < |cs| => Escaped(cs[i]))
  }

  lemma EscapedAppend(a: seq<Call>, b: seq<Call>)
    ensures AllEscaped(a + b) == AllEscaped(a) + AllEscaped(b)
  {
  }

  // ----- the writer ------------------------------------------------------------------------

  /** A JSONWriter's state: what is written, whether no comma is due, the open containers. */
  datatype Output = Output(data: string, first: bool, layers: nat)

  const FRESH := Output("[]", true, 0)

  function WithoutLast(s: string): string
  {
    if s == "" then "" else s[..|s| - 1]
  }

  /** start: at top level the closing bracket makes way. */
  function Start(w: Output, container: bool): Output
  {
    var data := (if w.layers == 0 then WithoutLast(w.data) else w.data) + if w.first then "" else ",";
    if container then Output(data, true, w.layers + 1) else w.(data := data)
  }

  function End(w: Output, container: bool): Output
  {
    if container && w.layers == 0 then w
    else
      var layers := if container then w.layers - 1 else w.layers;
      Output(if layers == 0 then w.data + "]" else w.data, false, layers)
  }

  function Put(w: Output, s: string): Output
  {
    w.(data := w.data + s)
  }

  function Scalar(w: Output, s: string): Output
  {
    End(Put(Start(w, false), s), false)
  }

  function Property(w: Output, name: string): Output
  {
    Put(Scalar(w, Quoted(name)), ":").(first := true)
  }

  function Open(w: Output, kind: Option<string>): Output
  {
    var begun := Put(Start(w, true), "{");
    if kind.None? then begun else Scalar(Property(begun, "__type"), Quoted(kind.value))
  }

  /** What a call writes. */
  function Apply(w: Output, c: Call): Output
  {
    match c
    case BeginObject(kind) => Open(w, kind)
    case PropertyName(name) => Property(w, name)
    case EndObject => End(Put(w, "}"), true)
    case BeginArray(_) => Put(Start(w, true), "[")
    case EndArray => End(Put(w, "]"), true)
    case WriteNumber(n) => Scalar(w, n)
    case WriteString(t) => Scalar(w, Quoted(t))
    case WriteBoolean(b) => Scalar(w, if b then "true" else "false")
    case WriteNull => Scalar(w, "null")
    case WriteDate(d) => Scalar(w, "\"" + d + "\"")
    case WriteByte(b) => Scalar(w, "{\"__bin\":\"" + b + "\"}")
  }

  function ApplyAll(w: Output, cs: seq<Call>): Output
    decreases |cs|
  {
    if cs == [] then w else ApplyAll(Apply(w, cs[0]), cs[1..])
  }

  lemma {:induction false} ApplyAppend(w: Output, a: seq<Call>, b: seq<Call>)
    ensures ApplyAll(w, a + b) == ApplyAll(ApplyAll(w, a), b)
    decreases |a|
  {
    hide Apply;
    if a == [] {
      assert a + b == b;
    } else {
      assert (a + b)[1..] == a[1..] + b;
      ApplyAppend(Apply(w, a[0]), a[1..], b);
    }
  }

  lemma ApplyOne(w: Output, c: Call)
    ensures ApplyAll(w, [c]) == Apply(w, c)
  {
    hide Apply;
    assert ApplyAll(Apply(w, c), [c][1..]) == Apply(w, c);
  }

  /** What a whole value adds to the output. */
  function Added(w: Output, s: string): Output
  {
    Scalar(w, s)
  }

  lemma Reassociate(a: string, b: string, c: string, d: string)
    ensures a + b + c + d == a + (b + c + d)
  {
    assert a + b + c + d == a + (b + c + d);
  }

  /** From calls to text: whatever the nesting, the state machine puts the commas,
      and at top level the closing bracket, exactly where the printed value has them. */
  lemma {:induction false} WritesValue(w: Output, v: Value)
    ensures ApplyAll(w, Calls(v)) == Added(w, Print(v))
    decreases v, 1
  {
    hide Start, End, Put, Quoted;
    match v
    case Array(items) =>
      WritesArray(w, items);
    case Object(kind, fields) =>
      WritesObject(w, kind, fields);
    case Null => ApplyOne(w, WriteNull);
    case Boolean(b) => ApplyOne(w, WriteBoolean(b));
    case Number(n) => ApplyOne(w, WriteNumber(n));
    case Text(t) => ApplyOne(w, WriteString(t));
    case Date(d) => ApplyOne(w, WriteDate(d));
    case Bytes(b) => ApplyOne(w, WriteByte(b));
  }

  lemma {:induction false} WritesArray(w: Output, items: Values)
    ensures ApplyAll(w, Calls(Array(items))) == Added(w, Print(Array(items)))
    decreases items, 2
  {
    hide Apply, Print, Calls, Added;
    var begun := Put(Start(w, true), "[");
    WritesItems(begun, items);
    ThreeParts(w, BeginArray(Length(items)), ItemCalls(items), EndArray);
    Closed(w, "[", PrintItems(items, true), items.NoValue?, "]");
    ArrayParts(w, items);
  }

  lemma ArrayParts(w: Output, items: Values)
    ensures Calls(Array(items)) == [BeginArray(Length(items))] + ItemCalls(items) + [EndArray]
    ensures Print(Array(items)) == "[" + PrintItems(items, true) + "]"
    ensures Apply(w, BeginArray(Length(items))) == Put(Start(w, true), "[")
    ensures forall x :: Apply(x, EndArray) == End(Put(x, "]"), true)
    ensures forall s :: Added(w, s) == Scalar(w, s)
  {
    hide Start, End, Put;
  }

  lemma ThreeParts(w: Output, first: Call, middle: seq<Call>, last: Call)
    ensures ApplyAll(w, [first] + middle + [last]) == Apply(ApplyAll(Apply(w, first), middle), last)
  {
    hide Apply;
    ApplyAppend(w, [first] + middle, [last]);
    ApplyAppend(w, [first], middle);
    ApplyOne(w, first);
    ApplyOne(ApplyAll(Apply(w, first), middle), last);
  }

  /** A container's brackets around its content. */
  lemma Closed(w: Output, open: string, content: string, first: bool, close: string)
    ensures End(Put(Put(Put(Start(w, true), open), content).(first := first), close), true)
      == Scalar(w, open + content + close)
  {
    var data := (if w.layers == 0 then WithoutLast(w.data) else w.data) + if w.first then "" else ",";
    Reassociate(data, open, content, close);
  }

  /** Inside a container. */
  lemma {:induction false} WritesItems(w: Output, vs: Values)
    requires w.layers > 0
    ensures ApplyAll(w, ItemCalls(vs)) == Put(w, PrintItems(vs, w.first)).(first := w.first && vs.NoValue?)
    decreases vs, 1
  {
    hide Apply, Print, Calls;
    if vs.NoValue? {
      assert w.data + "" == w.data;
    } else {
      ApplyAppend(w, Calls(vs.head), ItemCalls(vs.tail));
      WritesValue(w, vs.head);
      var w1 := Added(w, Print(vs.head));
      WritesItems(w1, vs.tail);
      var comma := if w.first then "" else ",";
      assert w1.data == w.data + comma + Print(vs.head);
      Reassociate(w.data, comma, Print(vs.head), PrintItems(vs.tail, false));
    }
  }

  lemma {:induction false} WritesFields(w: Output, fs: Fields)
    requires w.layers > 0
    ensures ApplyAll(w, FieldCalls(fs)) == Put(w, PrintFields(fs, w.first)).(first := w.first && fs.NoField?)
    decreases fs, 1
  {
    hide Print, Calls, Quoted;
    if fs.NoField? {
      assert w.data + "" == w.data;
    } else {
      var comma := if w.first then "" else ",";
      var w1 := Property(w, fs.name);
      ApplyAppend(w, [PropertyName(fs.name)] + Calls(fs.value), FieldCalls(fs.others));
      ApplyAppend(w, [PropertyName(fs.name)], Calls(fs.value));
      ApplyOne(w, PropertyName(fs.name));
      WritesValue(w1, fs.value);
      var w2 := Added(w1, Print(fs.value));
      assert w1.data == w.data + comma + Quoted(fs.name) + ":";
      assert w2.data == w1.data + "" + Print(fs.value);
      assert w1.data + "" == w1.data;
      WritesFields(w2, fs.others);
      FieldText(w.data, comma, Quoted(fs.name), Print(fs.value), PrintFields(fs.others, false));
    }
  }

  lemma FieldText(data: string, comma: string, name: string, value: string, others: string)
    ensures data + comma + name + ":" + value + others == data + (comma + name + ":" + value + others)
  {
    assert data + comma + name + ":" + value + others == data + (comma + name + ":" + value + others);
  }

  lemma {:induction false} WritesObject(w: Output, kind: Option<string>, fields: Fields)
    ensures ApplyAll(w, Calls(Object(kind, fields))) == Added(w, Print(Object(kind, fields)))
    decreases fields, 2
  {
    hide Apply, Print, Calls, Added, Quoted, Start, End;
    var begun := Open(w, kind);
    var typed := if kind.Some? then Quoted("__type") + ":" + Quoted(kind.value) else "";
    OpenIs(w, kind, typed);
    WritesFields(begun, fields);
    ThreeParts(w, BeginObject(kind), FieldCalls(fields), EndObject);
    Closed(w, "{", typed + PrintFields(fields, kind.None?), begun.first && fields.NoField?, "}");
    ObjectParts(w, kind, fields, typed);
    var data := Start(w, true).data;
    assert data + "{" + (typed + PrintFields(fields, kind.None?)) == data + "{" + typed + PrintFields(fields, kind.None?);
  }

  lemma OpenIs(w: Output, kind: Option<string>, typed: string)
    requires typed == if kind.Some? then Quoted("__type") + ":" + Quoted(kind.value) else ""
    ensures Open(w, kind) == Put(Put(Start(w, true), "{"), typed).(first := kind.None?)
    ensures Open(w, kind).layers > 0
  {
    hide Quoted;
    var data := Start(w, true).data + "{";
    if kind.Some? {
      var a, b := Quoted("__type"), Quoted(kind.value);
      assert data + "" + a + ":" + "" + b == data + (a + ":" + b);
    } else {
      assert data + "" == data;
    }
  }

  lemma ObjectParts(w: Output, kind: Option<string>, fields: Fields, typed: string)
    requires typed == if kind.Some? then Quoted("__type") + ":" + Quoted(kind.value) else ""
    ensures Calls(Object(kind, fields)) == [BeginObject(kind)] + FieldCalls(fields) + [EndObject]
    ensures Print(Object(kind, fields)) == "{" + (typed + PrintFields(fields, kind.None?)) + "}"
    ensures Apply(w, BeginObject(kind)) == Open(w, kind)
    ensures forall x :: Apply(x, EndObject) == End(Put(x, "}"), true)
    ensures forall s :: Added(w, s) == Scalar(w, s)
  {
    hide Start, End, Put, Quoted, Open;
    var x, y := "{" + typed, PrintFields(fields, kind.None?);
    assert "{" + (typed + y) == x + y;
  }

  /** From a fresh writer, any values: one array of them all, brackets closed. */
  lemma WritesAll(vs: Values)
    ensures ApplyAll(FRESH, ItemCalls(vs)) == Output("[" + PrintItems(vs, true) + "]", vs.NoValue?, 0)
  {
    hide Print, Calls, Apply;
    WritesTop(Output("[]", true, 0), "[", vs);
  }

  lemma {:induction false} WritesTop(w: Output, data: string, vs: Values)
    requires w.layers == 0 && w.data == data + "]"
    ensures ApplyAll(w, ItemCalls(vs))
      == Output(data + PrintItems(vs, w.first) + "]", w.first && vs.NoValue?, 0)
    decreases vs
  {
    hide Apply, Print, Calls;
    if vs.NoValue? {
      assert data + "" == data;
    } else {
      ApplyAppend(w, Calls(vs.head), ItemCalls(vs.tail));
      WritesValue(w, vs.head);
      var w1 := Added(w, Print(vs.head));
      var comma := if w.first then "" else ",";
      assert WithoutLast(w.data) == data;
      var data1 := data + comma + Print(vs.head);
      assert w1.data == data1 + "]";
      WritesTop(w1, data1, vs.tail);
      Reassociate(data, comma, Print(vs.head), PrintItems(vs.tail, false));
    }
  }

  // ----- the writer object --------------------------------------------------------------------

  class JSONWriter {
    var data: string
    var first: bool
    var layers: nat

    function State(): Output
      reads this
    {
      Output(data, first, layers)
    }

    constructor ()
      ensures State() == FRESH
    {
      data, first, layers := "[]", true, 0;
    }

    method StartValue(isContainer: bool)
      modifies this
      ensures State() == Start(old(State()), isContainer)
    {
      if layers == 0 && data != "" {
        data := data[..|data| - 1];
      }
      if !first {
        data := data + ",";
      } else {
        assert data + "" == data;
      }
      if isContainer {
        first := true;
        layers := layers + 1;
      }
    }

    method EndValue(isContainer: bool)
      modifies this
      ensures State() == End(old(State()), isContainer)
    {
      if isContainer {
        if layers == 0 {
          return;
        }
        layers := layers - 1;
      }
      if first {
        first := false;
      }
      if layers == 0 {
        data := data + "]";
      }
    }

    method WriteScalar(text: string)
      modifies this
      ensures State() == Scalar(old(State()), text)
    {
      StartValue(false);
      data := data + text;
      EndValue(false);
    }

    method WriteString(value: string)
      modifies this
      ensures State() == Apply(old(State()), Call.WriteString(value))
    {
      hide Start, End, Escape;
      StartValue(false);
      var text := WriteEscaped(value);
      data := data + ("\"" + text + "\"");
      EndValue(false);
    }

    /** Runs of plain characters are copied whole, the others replaced by two. */
    method WriteEscaped(value: string) returns (text: string)
      ensures text == Escape(value)
    {
      hide EscapeChar, Escape;
      text := "";
      var begin := 0;
      assert value[0..0] == "" && value[0..] == value;
      for i := 0 to |value|
        invariant begin <= i && text + value[begin..i] + Escape(value[i..]) == Escape(value)
      {
        var replaced := EscapeChar(value[i]);
        EscapeStep(text + value[begin..i], value, i);
        if |replaced| == 2 {
          text := text + value[begin..i] + replaced;
          begin := i + 1;
          assert text + value[begin..i + 1] == text;
        } else {
          PlainChar(value[i]);
          assert text + value[begin..i + 1] == text + value[begin..i] + [value[i]];
        }
      }
      text := text + value[begin..];
      EscapeNothing();
      assert value[begin..|value|] == value[begin..] && value[|value|..] == "" && text + "" == text;
    }

    method WritePropertyName(value: string)
      modifies this
      ensures State() == Apply(old(State()), PropertyName(value))
    {
      hide Start, End;
      WriteString(value);
      data := data + ":";
      first := true;
    }

    method BeginObject(kind: Option<string>)
      modifies this
      ensures State() == Apply(old(State()), Call.BeginObject(kind))
    {
      hide Start, End, Quoted;
      StartValue(true);
      data := data + "{";
      if kind.None? {
        return;
      }
      WritePropertyName("__type");
      WriteString(kind.value);
    }

    method EndObject()
      modifies this
      ensures State() == Apply(old(State()), Call.EndObject)
    {
      data := data + "}";
      EndValue(true);
    }

    method BeginArray(size: nat)
      modifies this
      ensures State() == Apply(old(State()), Call.BeginArray(size))
    {
      StartValue(true);
      data := data + "[";
    }

    method EndArray()
      modifies this
      ensures State() == Apply(old(State()), Call.EndArray)
    {
      data := data + "]";
      EndValue(true);
    }

    /** Any call of the interface. */
    method Write(c: Call)
      modifies this
      ensures State() == Apply(old(State()), c)
    {
      hide Start, End, Quoted;
      match c
      case BeginObject(kind) => BeginObject(kind);
      case PropertyName(name) => WritePropertyName(name);
      case EndObject => EndObject();
      case BeginArray(count) => BeginArray(count);
      case EndArray => EndArray();
      case WriteNumber(n) => WriteScalar(n);
      case WriteString(t) => WriteString(t);
      case WriteBoolean(b) => WriteScalar(if b then "true" else "false");
      case WriteNull => WriteScalar("null");
      case WriteDate(d) => WriteScalar("\"" + d + "\"");
      case WriteByte(b) => WriteScalar("{\"__bin\":\"" + b + "\"}");
    }
  }

  lemma EscapeStep(before: string, value: string, i: nat)
    requires i < |value|
    ensures before + Escape(value[i..]) == before + EscapeChar(value[i]) + Escape(value[i + 1..])
  {
    hide EscapeChar;
    assert value[i..][1..] == value[i + 1..];
  }

  lemma EscapeNothing()
    ensures Escape("") == ""
  {
  }

  lemma PlainChar(c: char)
    requires |EscapeChar(c)| != 2
    ensures EscapeChar(c) == [c]
  {
  }
}
