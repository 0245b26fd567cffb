/** Documents as trees, in any layout, and the callbacks the parser makes of them. */
module XmlTree {
  import opened Ascii
  import opened Xml
  import opened XmlRuns
  import opened XmlSections

  /** An attribute with the blanks in front of it and around its '='. */
  datatype Attribute = Attribute(before: string, name: string, gap: string, lead: string, quote: char, value: string)

  /** Text is plain or character data. */
  datatype Piece = Plain(text: string) | Section(marks: seq<Mark>)

  /** `blank` stands in front of the end of a tag, `tail` in an end tag. */
  datatype Node =
    | Element(name: string, attributes: seq<Attribute>, blank: string, content: Nodes, tail: string)
    | Full(name: string, attributes: seq<Attribute>, blank: string)
    | Text(pieces: seq<Piece>)
    | Comment(marks: seq<Mark>)
    | Instruction(name: string, attributes: seq<Attribute>, blank: string)
    | Blank(blank: string)

  datatype Nodes = Empty | Nodes(head: Node, tail: Nodes)

  predicate IsPunctuation(c: char)
  {
    c == '/' || c == '>' || c == '?' || c == '!' || c == '<'
  }

  predicate IsBlank(b: string)
  {
    forall i :: 0 <= i < |b| ==> IsSpace(b[i])
  }

  predicate IsName(n: string)
  {
    && n != "" && (IsAlpha(n[0]) || n[0] == '_')
    && forall i :: 1 <= i < |n| ==> IsXml(n[i])
  }

  /** No such quote but behind a backslash, which also hides another backslash. */
  predicate IsValue(v: string, quote: char)
  {
    v == ""
    || (v[0] != quote
        && if v[0] == '\\' then |v| > 1 && IsValue(v[2..], quote) else IsValue(v[1..], quote))
  }

  predicate IsAttribute(a: Attribute)
  {
    && a.before != "" && IsBlank(a.before) && IsName(a.name) && IsBlank(a.gap) && IsBlank(a.lead)
    && (a.quote == '\"' || a.quote == '\'') && IsValue(a.value, a.quote)
  }

  predicate AreAttributes(a: seq<Attribute>)
  {
    forall i :: 0 <= i < |a| ==> IsAttribute(a[i])
  }

  /** Plain text without markup, and no two plain pieces one behind the other. */
  predicate ArePieces(ps: seq<Piece>)
  {
    && (forall i :: 0 <= i < |ps| ==>
        if ps[i].Plain? then ps[i].text != "" && '<' !in ps[i].text else AreMarks(ps[i].marks, ']'))
    && (forall i :: 0 < i < |ps| ==> ps[i - 1].Section? || ps[i].Section?)
  }

  /** Text does not begin with a blank, which would not be part of it. */
  predicate IsText(ps: seq<Piece>)
  {
    ps != [] && ArePieces(ps) && (ps[0].Plain? ==> !IsSpace(ps[0].text[0]))
  }

  predicate ValidNode(n: Node)
  {
    match n
    case Element(name, attributes, blank, content, tail) =>
      IsName(name) && AreAttributes(attributes) && IsBlank(blank) && ValidNodes(content) && IsBlank(tail)
    case Full(name, attributes, blank) => IsName(name) && AreAttributes(attributes) && IsBlank(blank)
    case Text(pieces) => IsText(pieces)
    case Comment(marks) => AreMarks(marks, '-')
    case Instruction(name, attributes, blank) => IsName(name) && AreAttributes(attributes) && IsBlank(blank)
    case Blank(blank) => IsBlank(blank)
  }

  /** Behind text comes markup. */
  predicate ValidNodes(ns: Nodes)
  {
    ns.Nodes? ==>
      && ValidNode(ns.head) && ValidNodes(ns.tail)
      && (ns.head.Text? && ns.tail.Nodes? ==> !ns.tail.head.Text? && !ns.tail.head.Blank?)
  }

  /** Nodes that may stand outside any element. */
  predicate NoText(ns: Nodes)
  {
    ns.Nodes? ==> !ns.head.Text? && NoText(ns.tail)
  }

  // ----- the text of a tree --------------------------------------------------------------

  function Pair(a: Attribute): string
  {
    a.name + (a.gap + ("=" + (a.lead + ([a.quote] + (a.value + [a.quote])))))
  }

  function Attributes(a: seq<Attribute>): string
  {
    if a == [] then "" else a[0].before + (Pair(a[0]) + Attributes(a[1..]))
  }

  function RenderPiece(p: Piece): string
  {
    match p
    case Plain(t) => t
    case Section(marks) => "<![CDATA[" + (Written(marks, ']') + "]]>")
  }

  function RenderPieces(ps: seq<Piece>): string
  {
    if ps == [] then "" else RenderPiece(ps[0]) + RenderPieces(ps[1..])
  }

  function TagText(open: string, name: string, attributes: seq<Attribute>, blank: string, close: string): string
  {
    open + (name + (Attributes(attributes) + (blank + close)))
  }

  function Render(n: Node): string
  {
    match n
    case Element(name, attributes, blank, content, tail) =>
      TagText("<", name, attributes, blank, ">") + (RenderAll(content) + EndText(name, tail))
    case Full(name, attributes, blank) => TagText("<", name, attributes, blank, "/>")
    case Text(pieces) => RenderPieces(pieces)
    case Comment(marks) => "<!--" + (Written(marks, '-') + "-->")
    case Instruction(name, attributes, blank) => TagText("<?", name, attributes, blank, "?>")
    case Blank(blank) => blank
  }

  function EndText(name: string, tail: string): string
  {
    "</" + (name + (tail + ">"))
  }

  function RenderAll(ns: Nodes): string
  {
    if ns.Empty? then "" else Render(ns.head) + RenderAll(ns.tail)
  }

  // ----- its callbacks ----------------------------------------------------------------------

  function Pairs(a: seq<Attribute>): seq<(string, string)>
  {
    if a == [] then [] else [(a[0].name, a[0].value)] + Pairs(a[1..])
  }

  /** What pieces stand for. */
  function Meaning(ps: seq<Piece>): string
  {
    if ps == [] then ""
    else (match ps[0] case Plain(t) => t case Section(marks) => Chars(marks)) + Meaning(ps[1..])
  }

  /** How many blanks a text ends with. */
  function BlankEnd(t: string): (n: nat)
    ensures n <= |t|
  {
    if t == "" || !IsSpace(t[|t| - 1]) then 0 else 1 + BlankEnd(t[..|t| - 1])
  }

  /** Blanks at its end are no part of a text, unless they are character data. */
  function Trimmed(ps: seq<Piece>): string
    requires ps != []
  {
    var last := ps[|ps| - 1];
    Meaning(ps[..|ps| - 1])
    + match last case Plain(t) => t[..|t| - BlankEnd(t)] case Section(marks) => Chars(marks)
  }

  function Events(n: Node, parent: string): seq<Event>
    requires ValidNode(n)
  {
    match n
    case Element(name, attributes, _, content, _) =>
      [StartElement(name, Pairs(attributes))] + EventsOf(content, name) + [EndElement(name)]
    case Full(name, attributes, _) => [StartElement(name, Pairs(attributes)), EndElement(name)]
    case Text(pieces) => [Inner(parent, Trimmed(pieces))]
    case Comment(_) => []
    case Instruction(name, attributes, _) => [Infos(name, Pairs(attributes))]
    case Blank(_) => []
  }

  function EventsOf(ns: Nodes, parent: string): seq<Event>
    requires ValidNodes(ns)
  {
    if ns.Empty? then [] else Events(ns.head, parent) + EventsOf(ns.tail, parent)
  }

  // ----- blanks and names -------------------------------------------------------------------------

  lemma NoSpace(doc: string, p: nat)
    requires p <= |doc| && (p < |doc| ==> !IsSpace(doc[p]))
    ensures SkipSpace(doc, p) == p
  {
  }

  lemma {:induction false} BlankSkipped(doc: string, p: nat, b: string)
    requires IsBlank(b) && At(doc, p, b)
    ensures SkipSpace(doc, p) == SkipSpace(doc, p + |b|)
    decreases |b|
  {
    if b != "" {
      AtChar(doc, p, b, 0);
      assert b == [b[0]] + b[1..];
      AtBoth(doc, p, [b[0]], b[1..]);
      BlankSkipped(doc, p + 1, b[1..]);
    }
  }

  /** Blanks up to a character that is none. */
  lemma SkipsTo(doc: string, p: nat, b: string)
    requires IsBlank(b) && At(doc, p, b) && p + |b| < |doc| && !IsSpace(doc[p + |b|])
    ensures SkipSpace(doc, p) == p + |b|
  {
    BlankSkipped(doc, p, b);
    NoSpace(doc, p + |b|);
  }

  lemma NameReads(doc: string, p: nat, n: string, markers: string)
    requires IsName(n) && At(doc, p, n) && p + |n| < |doc|
    requires !IsXml(doc[p + |n|]) && EndsName(doc[p + |n|], markers)
    ensures ScanName(doc, p, markers) == Found(n, p + |n|)
  {
    hide IsXml, IsAlpha, IsSpace, EndsName;
    forall i | 0 <= i < |n| ensures doc[p + i] == n[i] {
      AtChar(doc, p, n, i);
    }
    var q := NameEnd(doc, p + 1);
    assert forall i :: p + 1 <= i < p + |n| ==> IsXml(doc[i]) by {
      forall i | p + 1 <= i < p + |n| ensures IsXml(doc[i]) {
        assert doc[i] == n[i - p];
      }
    }
    assert q == p + |n|;
  }

  /** A name is one exactly before a marker, a blank or a null character. */
  lemma NameReadsExactly(doc: string, p: nat, n: string, markers: string)
    requires IsName(n) && At(doc, p, n) && p + |n| < |doc| && !IsXml(doc[p + |n|])
    ensures var c := doc[p + |n|];
      ScanName(doc, p, markers) == Found(n, p + |n|) <==> c in markers || c == 0 as char || '\t' <= c <= '\r' || c == ' '
  {
    hide IsXml, IsAlpha;
    if EndsName(doc[p + |n|], markers) {
      NameReads(doc, p, n, markers);
    } else {
      NameStops(doc, p, n);
    }
  }

  lemma NameStops(doc: string, p: nat, n: string)
    requires IsName(n) && At(doc, p, n) && p + |n| < |doc| && !IsXml(doc[p + |n|])
    ensures NameEnd(doc, p + 1) == p + |n|
  {
    hide IsXml, IsAlpha;
    forall i | p + 1 <= i < p + |n| ensures IsXml(doc[i]) {
      AtChar(doc, p, n, i - p);
    }
  }

  lemma NameBegins(doc: string, p: nat, n: string)
    requires IsName(n) && At(doc, p, n)
    ensures p < |doc| && !IsSpace(doc[p]) && !IsPunctuation(doc[p]) && n != ""
  {
    AtChar(doc, p, n, 0);
  }

  /** A blank ends any name. */
  lemma BlankEndsName(c: char, markers: string)
    requires IsSpace(c)
    ensures !IsXml(c) && EndsName(c, markers)
  {
  }

  // ----- attributes -----------------------------------------------------------------------------------

  lemma {:induction false} ValueReads(doc: string, p: nat, v: string, quote: char)
    requires IsValue(v, quote) && quote != '\\' && At(doc, p, v + [quote])
    ensures ValueEnd(doc, p, quote) == p + |v|
    decreases |v|
  {
    AtChar(doc, p, v + [quote], 0);
    if v != "" {
      var n := if v[0] == '\\' then 2 else 1;
      assert v + [quote] == v[..n] + (v[n..] + [quote]);
      AtBoth(doc, p, v[..n], v[n..] + [quote]);
      ValueReads(doc, p + n, v[n..], quote);
    }
  }

  /** Where the parts of an attribute stand, from its name on. */
  lemma PairAt(doc: string, p: nat, a: Attribute)
    requires At(doc, p, Pair(a))
    ensures var equal := p + |a.name| + |a.gap|;
      && equal < |doc| && |Pair(a)| == |a.name| + |a.gap| + |a.lead| + |a.value| + 3
      && At(doc, p, a.name) && At(doc, p + |a.name|, a.gap) && doc[equal] == '='
      && At(doc, equal + 1, a.lead + ([a.quote] + (a.value + [a.quote])))
  {
    hide At;
    var value := a.lead + ([a.quote] + (a.value + [a.quote]));
    AtBoth(doc, p, a.name, a.gap + ("=" + value));
    AtBoth(doc, p + |a.name|, a.gap, "=" + value);
    var equal := p + |a.name| + |a.gap|;
    AtBoth(doc, equal, "=", value);
    AtChar(doc, equal, "=", 0);
    AtIs(doc, equal, "=");
  }

  lemma ValueAt(doc: string, p: nat, a: Attribute)
    requires At(doc, p, a.lead + ([a.quote] + (a.value + [a.quote])))
    ensures var open := p + |a.lead|;
      && open + 1 + |a.value| < |doc| && At(doc, p, a.lead) && doc[open] == a.quote && At(doc, open + 1, a.value + [a.quote])
  {
    hide At;
    var end := a.value + [a.quote];
    AtBoth(doc, p, a.lead, [a.quote] + end);
    var open := p + |a.lead|;
    AtBoth(doc, open, [a.quote], end);
    AtChar(doc, open, [a.quote], 0);
    AtIs(doc, open + 1, end);
  }

  lemma NotBlank()
    ensures !IsSpace('=') && !IsSpace('\"') && !IsSpace('\'') && !IsSpace('/') && !IsSpace('>') && !IsSpace('?') && !IsSpace('<')
    ensures !IsXml('=') && !IsXml('/') && !IsXml('>') && !IsXml('?')
  {
  }

  /** Behind a name comes a blank, or else the character that was looked for. */
  lemma NameEnds(doc: string, p: nat, b: string, markers: string)
    requires IsBlank(b) && At(doc, p, b) && p + |b| < |doc|
    requires !IsXml(doc[p + |b|]) && EndsName(doc[p + |b|], markers)
    ensures !IsXml(doc[p]) && EndsName(doc[p], markers)
  {
    hide IsXml, EndsName;
    if b != "" {
      AtChar(doc, p, b, 0);
      BlankEndsName(b[0], markers);
    }
  }

  lemma AttributeReads(doc: string, p: nat, a: Attribute)
    requires IsAttribute(a) && At(doc, p, Pair(a))
    ensures p < |doc| && ScanAttribute(doc, p) == Found((a.name, a.value), p + |Pair(a)|)
  {
    hide IsName, IsBlank, IsValue, ScanName, ScanQuoted, ValueEnd, SkipSpace, At, IsSpace, IsXml, Pair;
    PairAt(doc, p, a);
    var equal := p + |a.name| + |a.gap|;
    var open := equal + 1 + |a.lead|;
    ValueAt(doc, equal + 1, a);
    NotBlank();
    NameEnds(doc, p + |a.name|, a.gap, "=");
    NameReads(doc, p, a.name, "=");
    SkipsTo(doc, p + |a.name|, a.gap);
    SkipsTo(doc, equal + 1, a.lead);
    QuotedReads(doc, a.name, open, a.quote, a.value);
    AtIs(doc, p, a.name);
  }

  lemma QuotedReads(doc: string, name: string, open: nat, quote: char, v: string)
    requires (quote == '\"' || quote == '\'') && IsValue(v, quote)
    requires open + 1 + |v| < |doc| && doc[open] == quote && At(doc, open + 1, v + [quote])
    ensures ScanQuoted(doc, name, open) == Found((name, v), open + |v| + 2)
  {
    hide IsValue, ValueEnd, At;
    ValueReads(doc, open + 1, v, quote);
    AtBoth(doc, open + 1, v, [quote]);
    AtIs(doc, open + 1, v);
  }

  /** How a tag ends, and whether that makes a full element of it. */
  predicate Closes(close: string, infos: bool)
  {
    close == (if infos then "?>" else ">") || (!infos && close == "/>")
  }

  lemma CloseReads(doc: string, p: nat, blank: string, close: string, infos: bool)
    requires IsBlank(blank) && Closes(close, infos) && At(doc, p, blank + close)
    ensures ScanAttributes(doc, p, infos) == Found(([], close == "/>"), p + |blank| + |close| - 1)
    ensures p < |doc| && !IsXml(doc[p]) && EndsName(doc[p], if infos then "?" else "/>")
  {
    hide At, SkipSpace, ScanAttribute, IsSpace, IsXml;
    AtBoth(doc, p, blank, close);
    var q := p + |blank|;
    AtIs(doc, q, close);
    AtChar(doc, q, close, 0);
    NotBlank();
    if close != ">" {
      AtChar(doc, q, close, 1);
    }
    SkipsTo(doc, p, blank);
    NameEnds(doc, p, blank, if infos then "?" else "/>");
    AtIs(doc, p, blank + close);
  }

  lemma {:induction false} AttributesRead(doc: string, p: nat, a: seq<Attribute>, blank: string, close: string, infos: bool)
    requires AreAttributes(a) && IsBlank(blank) && Closes(close, infos) && At(doc, p, Attributes(a) + (blank + close))
    ensures ScanAttributes(doc, p, infos) == Found((Pairs(a), close == "/>"), p + |Attributes(a)| + |blank| + |close| - 1)
    ensures p < |doc| && !IsXml(doc[p]) && EndsName(doc[p], if infos then "?" else "/>")
    decreases |a|
  {
    hide ScanAttribute, ScanAttributes, SkipSpace, At, Pair, IsBlank, IsAttribute, IsXml, IsSpace, EndsName, Closes;
    if a == [] {
      assert "" + (blank + close) == blank + close;
      CloseReads(doc, p, blank, close, infos);
    } else {
      var later := Attributes(a[1..]) + (blank + close);
      assert Attributes(a) + (blank + close) == a[0].before + (Pair(a[0]) + later);
      AtBoth(doc, p, a[0].before, Pair(a[0]) + later);
      AtBoth(doc, p + |a[0].before|, Pair(a[0]), later);
      AttributesRead(doc, p + |a[0].before| + |Pair(a[0])|, a[1..], blank, close, infos);
      OneAttribute(doc, p, a[0], infos);
    }
  }

  lemma OneAttribute(doc: string, p: nat, a: Attribute, infos: bool)
    requires IsAttribute(a) && At(doc, p, a.before) && At(doc, p + |a.before|, Pair(a))
    ensures p < |doc| && IsSpace(doc[p]) && p + |a.before| + |Pair(a)| <= |doc|
    ensures !IsXml(doc[p]) && EndsName(doc[p], if infos then "?" else "/>")
    ensures ScanAttributes(doc, p, infos)
      == WithAttribute((a.name, a.value), ScanAttributes(doc, p + |a.before| + |Pair(a)|, infos))
  {
    hide IsName, IsValue, ScanAttribute, ScanAttributes, SkipSpace, At, Pair, IsXml, IsSpace, EndsName, IsBlank;
    var q := p + |a.before|;
    AtIs(doc, p, a.before);
    AtIs(doc, q, Pair(a));
    FirstBlank(a.before);
    AtChar(doc, p, a.before, 0);
    BlankEndsName(doc[p], if infos then "?" else "/>");
    PairAt(doc, q, a);
    NameBegins(doc, q, a.name);
    SkipsTo(doc, p, a.before);
    AttributeReads(doc, q, a);
    AttributeStep(doc, p, q, infos);
  }

  lemma FirstBlank(b: string)
    requires b != "" && IsBlank(b)
    ensures IsSpace(b[0])
  {
  }

  lemma AttributeStep(doc: string, p: nat, q: nat, infos: bool)
    requires p <= |doc| && SkipSpace(doc, p) == q < |doc| && !IsPunctuation(doc[q]) && ScanAttribute(doc, q).Found?
    ensures ScanAttributes(doc, p, infos)
      == WithAttribute(ScanAttribute(doc, q).value, ScanAttributes(doc, ScanAttribute(doc, q).next, infos))
  {
    hide ScanAttribute, SkipSpace;
  }

  // ----- tags -----------------------------------------------------------------------------------------

  predicate Inside(doc: string, s: State)
  {
    Valid(doc, s) && s.started && (s.tags != [] ==> !Top(s.tags).full)
  }

  lemma InsideValid(doc: string, s: State)
    requires Inside(doc, s)
    ensures Valid(doc, s)
  {
  }

  predicate Opens(open: string, close: string)
  {
    (open == "<" && Closes(close, false)) || (open == "<?" && Closes(close, true))
  }

  lemma TagAt(doc: string, p: nat, open: string, name: string, a: seq<Attribute>, blank: string, close: string)
    requires Opens(open, close) && IsName(name) && At(doc, p, TagText(open, name, a, blank, close))
    ensures var n := p + |open|;
      && n < |doc| && p + 2 < |doc| && doc[p] == '<'
      && doc[p + 1] != '/' && doc[p + 1] != '!' && (doc[p + 1] == '?' <==> open == "<?")
      && At(doc, n, name) && At(doc, n + |name|, Attributes(a) + (blank + close))
      && p + |TagText(open, name, a, blank, close)| <= |doc|
  {
    hide IsName, Attributes, At;
    var rest := Attributes(a) + (blank + close);
    AtIs(doc, p, TagText(open, name, a, blank, close));
    AtBoth(doc, p, open, name + rest);
    AtChar(doc, p, open, 0);
    AtBoth(doc, p + |open|, name, rest);
    NameBegins(doc, p + |open|, name);
    if open == "<?" {
      AtChar(doc, p, open, 1);
    }
  }

  /** A start tag or an instruction, and the blanks behind it. */
  lemma TagReads(doc: string, s: State, open: string, name: string, a: seq<Attribute>, blank: string, close: string)
    requires Inside(doc, s) && Opens(open, close) && IsName(name) && AreAttributes(a) && IsBlank(blank)
    requires At(doc, s.pos, TagText(open, name, a, blank, close))
    ensures var p := s.pos + |TagText(open, name, a, blank, close)|;
      && p <= |doc|
      && Step(doc, s) == if open == "<?" then Emit(Infos(name, Pairs(a)), s.(pos := SkipSpace(doc, p)))
         else Emit(StartElement(name, Pairs(a)), State(true, SkipSpace(doc, p), s.tags + [Tag(name, close == "/>")]))
  {
    hide ScanName, ScanAttributes, IsName, AreAttributes, SkipSpace, Attributes, Bang, EndTag, At, IsXml, EndsName,
      Valid, IsBlank;
    TagAt(doc, s.pos, open, name, a, blank, close);
    var n := s.pos + |open|;
    AttributesRead(doc, n + |name|, a, blank, close, open == "<?");
    NameReads(doc, n, name, if open == "<?" then "?" else "/>");
    assert Step(doc, s) == Next(doc, s) == StartTag(doc, s) by {
      hide StartTag;
      InsideValid(doc, s);
    }
  }

  lemma EndAtTag(doc: string, p: nat, name: string, tail: string)
    requires At(doc, p, EndText(name, tail))
    ensures var e := p + 2 + |name|;
      && e + |tail| < |doc| && doc[p] == '<' && doc[p + 1] == '/' && doc[p + 2..e] == name
      && At(doc, e, tail) && doc[e + |tail|] == '>'
  {
    hide At;
    AtBoth(doc, p, "</", name + (tail + ">"));
    AtChar(doc, p, "</", 0);
    AtChar(doc, p, "</", 1);
    AtBoth(doc, p + 2, name, tail + ">");
    AtIs(doc, p + 2, name);
    AtBoth(doc, p + 2 + |name|, tail, ">");
    AtChar(doc, p + 2 + |name| + |tail|, ">", 0);
    AtIs(doc, p + 2 + |name| + |tail|, ">");
  }

  lemma EndReads(doc: string, s: State, name: string, tail: string)
    requires Inside(doc, s) && IsBlank(tail) && s.tags != [] && Top(s.tags) == Tag(name, false)
    requires At(doc, s.pos, EndText(name, tail))
    ensures var p := s.pos + |EndText(name, tail)|;
      p <= |doc| && Step(doc, s) == Emit(EndElement(name), State(true, SkipSpace(doc, p), Pop(s.tags)))
  {
    hide SkipSpace, Bang, StartTag, EndTag, At, Valid, IsBlank;
    EndAtTag(doc, s.pos, name, tail);
    NotBlank();
    SkipsTo(doc, s.pos + 2 + |name|, tail);
    InsideValid(doc, s);
    EndTagReads(doc, s, name, s.pos + 2 + |name| + |tail|);
  }

  lemma EndTagReads(doc: string, s: State, name: string, close: nat)
    requires Valid(doc, s) && s.started && s.tags != [] && Top(s.tags) == Tag(name, false)
    requires s.pos + |name| + 2 <= close < |doc| && doc[s.pos + 2..s.pos + 2 + |name|] == name && doc[close] == '>'
    requires SkipSpace(doc, s.pos + 2 + |name|) == close
    ensures EndTag(doc, s) == Emit(EndElement(name), State(true, SkipSpace(doc, close + 1), Pop(s.tags)))
  {
    hide SkipSpace, Valid;
  }

  // ----- text -------------------------------------------------------------------------------------------

  /** Counting the blanks at the end from the front, as the loop does. */
  function Spaces(t: string, n: nat): (r: nat)
    ensures r <= n + |t|
    decreases |t|
  {
    if t == "" then n else Spaces(t[1..], if IsSpace(t[0]) then n + 1 else 0)
  }

  lemma {:induction false} SpacesEnd(t: string, n: nat)
    ensures Spaces(t, n) == BlankEnd(t) + if BlankEnd(t) == |t| then n else 0
    decreases |t|
  {
    if t != "" {
      SpacesEnd(t[1..], if IsSpace(t[0]) then n + 1 else 0);
      BlankEndFront(t);
    }
  }

  lemma {:induction false} BlankEndFront(t: string)
    requires t != ""
    ensures BlankEnd(t) == BlankEnd(t[1..]) + if BlankEnd(t[1..]) == |t| - 1 && IsSpace(t[0]) then 1 else 0
    decreases |t|
  {
    if |t| > 1 && IsSpace(t[|t| - 1]) {
      var init := t[..|t| - 1];
      BlankEndFront(init);
      assert t[1..][..|t| - 2] == init[1..];
    }
  }

  lemma {:induction false} PlainReads(doc: string, p: nat, t: string, buffer: string, spaces: nat)
    requires At(doc, p, t) && '<' !in t && spaces <= |buffer|
    ensures p + |t| <= |doc|
    ensures ReadInner(doc, p, buffer, spaces) == ReadInner(doc, p + |t|, buffer + t, Spaces(t, spaces))
    decreases |t|
  {
    if t == "" {
      assert buffer + t == buffer;
    } else {
      AtChar(doc, p, t, 0);
      assert t == [t[0]] + t[1..];
      AtBoth(doc, p, [t[0]], t[1..]);
      PlainReads(doc, p + 1, t[1..], buffer + [t[0]], if IsSpace(t[0]) then spaces + 1 else 0);
      assert buffer + [t[0]] + t[1..] == buffer + t;
    }
  }

  lemma SectionAt(doc: string, p: nat, marks: seq<Mark>)
    requires At(doc, p, RenderPiece(Section(marks)))
    ensures IsCData(doc, p) && At(doc, p + 9, Written(marks, ']') + "]]>")
    ensures p + |RenderPiece(Section(marks))| <= |doc|
  {
    var end := Written(marks, ']') + "]]>";
    AtBoth(doc, p, "<![CDATA[", end);
  }

  lemma SectionReads(doc: string, p: nat, marks: seq<Mark>, buffer: string, spaces: nat)
    requires AreMarks(marks, ']') && At(doc, p, RenderPiece(Section(marks))) && spaces <= |buffer|
    ensures p + |RenderPiece(Section(marks))| <= |doc|
    ensures ReadInner(doc, p, buffer, spaces)
      == ReadInner(doc, p + |RenderPiece(Section(marks))|, buffer + Chars(marks), 0)
  {
    SectionAt(doc, p, marks);
    hide At, CData, Written, Chars, AreMarks;
    CDataReads(doc, p + 9, marks);
    SectionOpens(doc, p);
  }

  lemma SectionOpens(doc: string, p: nat)
    requires p <= |doc| && IsCData(doc, p)
    ensures p < |doc| && doc[p] == '<' && p + 1 < |doc| && doc[p + 1] == '!' && p + 3 < |doc|
  {
    assert doc[p..p + 9][0] == doc[p] && doc[p..p + 9][1] == doc[p + 1];
  }

  /** What may follow text: markup that is no character data. */
  predicate Markup(doc: string, p: nat)
  {
    p < |doc| && doc[p] == '<' && !IsCData(doc, p)
  }

  function PieceMeaning(p: Piece): string
  {
    match p case Plain(t) => t case Section(marks) => Chars(marks)
  }

  lemma TrimmedCons(ps: seq<Piece>)
    requires |ps| > 1
    ensures Trimmed(ps) == PieceMeaning(ps[0]) + Trimmed(ps[1..])
  {
    var init := ps[..|ps| - 1];
    assert init[0] == ps[0] && init[1..] == ps[1..][..|ps| - 2];
    assert Meaning(init) == PieceMeaning(ps[0]) + Meaning(init[1..]);
  }

  lemma PieceReads(doc: string, p: nat, x: Piece, buffer: string, spaces: nat)
    requires ArePieces([x]) && At(doc, p, RenderPiece(x)) && spaces <= |buffer|
    ensures p + |RenderPiece(x)| <= |doc|
    ensures var left := if x.Plain? then Spaces(x.text, spaces) else 0;
      left <= |buffer + PieceMeaning(x)|
      && ReadInner(doc, p, buffer, spaces) == ReadInner(doc, p + |RenderPiece(x)|, buffer + PieceMeaning(x), left)
  {
    hide At, ReadInner, Written, IsSpace;
    assert [x][0] == x;
    if x.Plain? {
      PlainReads(doc, p, x.text, buffer, spaces);
    } else {
      SectionReads(doc, p, x.marks, buffer, spaces);
    }
  }

  lemma FirstPiece(ps: seq<Piece>)
    requires ps != [] && ArePieces(ps)
    ensures ArePieces([ps[0]]) && ArePieces(ps[1..]) && (|ps| > 1 && ps[0].Plain? ==> ps[1].Section?)
    ensures RenderPieces(ps) == RenderPiece(ps[0]) + RenderPieces(ps[1..])
  {
    hide AreMarks, RenderPiece;
  }

  lemma {:induction false} PiecesRead(doc: string, p: nat, ps: seq<Piece>, buffer: string, spaces: nat)
    requires ps != [] && ArePieces(ps) && At(doc, p, RenderPieces(ps)) && Markup(doc, p + |RenderPieces(ps)|)
    requires spaces <= |buffer| && (ps[0].Plain? ==> spaces == 0)
    ensures ReadInner(doc, p, buffer, spaces) == Found(buffer + Trimmed(ps), p + |RenderPieces(ps)|)
    decreases |ps|
  {
    hide At, ReadInner, ArePieces, RenderPieces, RenderPiece, Markup, Spaces, BlankEnd;
    FirstPiece(ps);
    var x, later := ps[0], ps[1..];
    AtBoth(doc, p, RenderPiece(x), RenderPieces(later));
    PieceReads(doc, p, x, buffer, spaces);
    var q, read := p + |RenderPiece(x)|, buffer + PieceMeaning(x);
    var left := if x.Plain? then Spaces(x.text, spaces) else 0;
    if later == [] {
      NoPieces();
      InnerEnds(doc, q, read, left);
      if x.Plain? {
        SpacesEnd(x.text, 0);
        assert read[..|read| - left] == buffer + x.text[..|x.text| - left];
      } else {
        assert read[..|read| - left] == read;
      }
      TrimmedOne(x);
      assert ps == [x];
    } else {
      PiecesRead(doc, q, later, read, left);
      TrimmedCons(ps);
      assert buffer + PieceMeaning(x) + Trimmed(later) == buffer + (PieceMeaning(x) + Trimmed(later));
    }
  }

  lemma NoPieces()
    ensures RenderPieces([]) == "" && Meaning([]) == ""
  {
  }

  lemma TrimmedOne(x: Piece)
    ensures Trimmed([x]) == match x case Plain(t) => t[..|t| - BlankEnd(t)] case Section(marks) => Chars(marks)
  {
    assert [x][..0] == [];
    NoPieces();
  }

  lemma InnerEnds(doc: string, p: nat, buffer: string, spaces: nat)
    requires Markup(doc, p) && spaces <= |buffer|
    ensures ReadInner(doc, p, buffer, spaces) == Found(buffer[..|buffer| - spaces], p)
  {
  }

  lemma InnerReads(doc: string, s: State, ps: seq<Piece>)
    requires Inside(doc, s) && s.tags != [] && IsText(ps) && At(doc, s.pos, RenderPieces(ps))
    requires Markup(doc, s.pos + |RenderPieces(ps)|)
    ensures Step(doc, s) == Emit(Inner(Top(s.tags).name, Trimmed(ps)), s.(pos := s.pos + |RenderPieces(ps)|))
  {
    hide At, Markup, ArePieces, ReadInner, Trimmed, Valid;
    PiecesRead(doc, s.pos, ps, "", 0);
    assert "" + Trimmed(ps) == Trimmed(ps);
    TextBegins(doc, s.pos, ps);
    InsideValid(doc, s);
    TextIsInner(doc, s);
  }

  /** Text begins with a character of it or with a section. */
  lemma TextBegins(doc: string, p: nat, ps: seq<Piece>)
    requires IsText(ps) && At(doc, p, RenderPieces(ps))
    ensures p < |doc| && (IsCData(doc, p) || (doc[p] != '<' && !IsSpace(doc[p])))
  {
    hide Written, AreMarks;
    AtBoth(doc, p, RenderPiece(ps[0]), RenderPieces(ps[1..]));
    if ps[0].Plain? {
      AtChar(doc, p, ps[0].text, 0);
    } else {
      SectionAt(doc, p, ps[0].marks);
    }
  }

  lemma TextIsInner(doc: string, s: State)
    requires Valid(doc, s) && s.started && s.tags != [] && !Top(s.tags).full && s.pos < |doc|
    requires IsCData(doc, s.pos) || (doc[s.pos] != '<' && !IsSpace(doc[s.pos]))
    ensures Step(doc, s) == InnerOutcome(s, ReadInner(doc, s.pos, "", 0))
  {
    hide CommentEnd, Valid, ReadInner;
    InnerUnfold(doc, s.pos);
    if IsCData(doc, s.pos) {
      SectionOpens(doc, s.pos);
      assert Next(doc, s) == Bang(doc, s);
    } else {
      assert Next(doc, s) == InnerOutcome(s, ReadInner(doc, s.pos + 1, [doc[s.pos]], 0));
    }
  }

  lemma InnerUnfold(doc: string, p: nat)
    requires p < |doc| && (IsCData(doc, p) || (doc[p] != '<' && !IsSpace(doc[p])))
    ensures ReadInner(doc, p, "", 0) == if IsCData(doc, p) then ReadAfterCData(doc, p, "") else ReadInner(doc, p + 1, [doc[p]], 0)
  {
    hide ReadAfterCData;
    if IsCData(doc, p) {
      SectionOpens(doc, p);
    } else {
      assert "" + [doc[p]] == [doc[p]];
    }
  }

  // ----- trees --------------------------------------------------------------------------------------

  /** From `s` the parser makes exactly these callbacks and is then in `s'`. */
  predicate Makes(doc: string, s: State, events: seq<Event>, s': State)
  {
    && Valid(doc, s) && Valid(doc, s')
    && Trace(doc, s) == (events + Trace(doc, s').0, Trace(doc, s').1)
  }

  lemma MakesBoth(doc: string, s: State, a: seq<Event>, s1: State, b: seq<Event>, s2: State)
    requires Makes(doc, s, a, s1) && Makes(doc, s1, b, s2)
    ensures Makes(doc, s, a + b, s2)
  {
    hide Trace;
    assert a + (b + Trace(doc, s2).0) == a + b + Trace(doc, s2).0;
  }

  lemma NothingMade(doc: string, s: State, s': State)
    requires Valid(doc, s) && Valid(doc, s') && Step(doc, s) == Step(doc, s')
    ensures Makes(doc, s, [], s')
  {
    hide Step;
    assert [] + Trace(doc, s').0 == Trace(doc, s').0;
  }

  lemma {:induction false} NextSkips(doc: string, s: State)
    requires Valid(doc, s) && (s.tags != [] ==> !Top(s.tags).full)
    ensures Next(doc, s) == Next(doc, s.(pos := SkipSpace(doc, s.pos)))
    decreases |doc| - s.pos
  {
    hide Bang, StartTag, EndTag, ReadInner;
    if s.pos < |doc| && IsSpace(doc[s.pos]) {
      NextSkips(doc, s.(pos := s.pos + 1));
    }
  }

  /** Blanks behind a tag are passed over at once or with the next callback. */
  lemma SkipMakes(doc: string, s: State)
    requires Valid(doc, s) && (s.tags != [] ==> !Top(s.tags).full)
    ensures Makes(doc, s, [], s.(pos := SkipSpace(doc, s.pos))) && Makes(doc, s.(pos := SkipSpace(doc, s.pos)), [], s)
  {
    SkipValid(doc, s);
    hide Makes, Next, Valid, SkipSpace;
    var s' := s.(pos := SkipSpace(doc, s.pos));
    NextSkips(doc, s);
    NothingMade(doc, s, s');
    NothingMade(doc, s', s);
  }

  lemma SkipValid(doc: string, s: State)
    requires Valid(doc, s)
    ensures s.pos <= |doc| && Valid(doc, s.(pos := SkipSpace(doc, s.pos)))
  {
  }

  lemma MakesOne(doc: string, s: State, e: Event, s': State)
    requires Valid(doc, s) && Step(doc, s) == Emit(e, s')
    ensures Makes(doc, s, [e], s')
  {
    hide Step;
  }

  /** One callback, and the blanks behind. */
  lemma MakesTo(doc: string, s: State, e: Event, s': State)
    requires Valid(doc, s) && Valid(doc, s') && (s'.tags != [] ==> !Top(s'.tags).full)
    requires Step(doc, s) == Emit(e, s'.(pos := SkipSpace(doc, s'.pos)))
    ensures Makes(doc, s, [e], s')
  {
    hide Makes, Step, Valid, SkipSpace;
    var s1 := s'.(pos := SkipSpace(doc, s'.pos));
    MakesOne(doc, s, e, s1);
    SkipMakes(doc, s');
    MakesBoth(doc, s, [e], s1, [], s');
    assert [e] + [] == [e];
  }

  lemma InstructionMakes(doc: string, s: State, name: string, a: seq<Attribute>, blank: string)
    requires Inside(doc, s) && IsName(name) && AreAttributes(a) && IsBlank(blank)
    requires At(doc, s.pos, TagText("<?", name, a, blank, "?>"))
    ensures Makes(doc, s, [Infos(name, Pairs(a))], s.(pos := s.pos + |TagText("<?", name, a, blank, "?>")|))
  {
    hide IsName, AreAttributes, IsBlank, At, TagText, Step, Makes, SkipSpace;
    TagReads(doc, s, "<?", name, a, blank, "?>");
    MakesTo(doc, s, Infos(name, Pairs(a)), s.(pos := s.pos + |TagText("<?", name, a, blank, "?>")|));
  }

  lemma StartMakes(doc: string, s: State, name: string, a: seq<Attribute>, blank: string)
    requires Inside(doc, s) && IsName(name) && AreAttributes(a) && IsBlank(blank)
    requires At(doc, s.pos, TagText("<", name, a, blank, ">"))
    ensures var s1 := State(true, s.pos + |TagText("<", name, a, blank, ">")|, s.tags + [Tag(name, false)]);
      Inside(doc, s1) && Makes(doc, s, [StartElement(name, Pairs(a))], s1)
  {
    hide IsName, AreAttributes, IsBlank, At, TagText, Step, Makes, SkipSpace;
    TagReads(doc, s, "<", name, a, blank, ">");
    var p := s.pos + |TagText("<", name, a, blank, ">")|;
    MakesTo(doc, s, StartElement(name, Pairs(a)), State(true, p, s.tags + [Tag(name, false)]));
  }

  lemma EndMakes(doc: string, s: State, name: string, tail: string, tags: seq<Tag>)
    requires Inside(doc, s) && IsBlank(tail) && s.tags == tags + [Tag(name, false)] && At(doc, s.pos, EndText(name, tail))
    ensures Makes(doc, s, [EndElement(name)], State(true, s.pos + |EndText(name, tail)|, tags))
  {
    hide IsBlank, At, EndText, Step, Makes, SkipSpace;
    EndReads(doc, s, name, tail);
    assert Pop(s.tags) == tags;
    assert forall i :: 0 <= i < |tags| ==> tags[i] == s.tags[i];
    MakesTo(doc, s, EndElement(name), State(true, s.pos + |EndText(name, tail)|, tags));
  }

  lemma FullEnds(doc: string, s: State, name: string, p: nat)
    requires Inside(doc, s) && s.pos <= p <= |doc|
    ensures Makes(doc, State(true, SkipSpace(doc, p), s.tags + [Tag(name, true)]), [EndElement(name)], s.(pos := p))
  {
    hide Makes, SkipSpace, Next;
    var s1 := State(true, SkipSpace(doc, p), s.tags + [Tag(name, true)]);
    assert Pop(s1.tags) == s.tags;
    MakesTo(doc, s1, EndElement(name), s.(pos := p));
  }

  /** A full element ends at once. */
  lemma FullMakes(doc: string, s: State, name: string, a: seq<Attribute>, blank: string)
    requires Inside(doc, s) && IsName(name) && AreAttributes(a) && IsBlank(blank)
    requires At(doc, s.pos, TagText("<", name, a, blank, "/>"))
    ensures Makes(doc, s, [StartElement(name, Pairs(a)), EndElement(name)], s.(pos := s.pos + |TagText("<", name, a, blank, "/>")|))
  {
    hide IsName, AreAttributes, IsBlank, At, TagText, Makes, SkipSpace, Step;
    TagReads(doc, s, "<", name, a, blank, "/>");
    var p := s.pos + |TagText("<", name, a, blank, "/>")|;
    var s1 := State(true, SkipSpace(doc, p), s.tags + [Tag(name, true)]);
    MakesOne(doc, s, StartElement(name, Pairs(a)), s1);
    FullEnds(doc, s, name, p);
    MakesBoth(doc, s, [StartElement(name, Pairs(a))], s1, [EndElement(name)], s.(pos := p));
    assert [StartElement(name, Pairs(a))] + [EndElement(name)] == [StartElement(name, Pairs(a)), EndElement(name)];
  }

  lemma CommentAt(doc: string, p: nat, marks: seq<Mark>)
    requires At(doc, p, Render(Comment(marks)))
    ensures At(doc, p, "<!--") && At(doc, p + 4, Written(marks, '-') + "-->")
    ensures p + 4 < |doc| && doc[p] == '<' && doc[p + 1] == '!' && doc[p + 2] == '-' && doc[p + 3] == '-'
    ensures p + |Render(Comment(marks))| <= |doc| && !IsCData(doc, p)
  {
    var end := Written(marks, '-') + "-->";
    AtBoth(doc, p, "<!--", end);
    AtChar(doc, p, "<!--", 2);
    NotSection(doc, p);
  }

  lemma CommentNext(doc: string, s: State, close: nat)
    requires Inside(doc, s) && s.pos + 4 <= |doc| && doc[s.pos] == '<' && doc[s.pos + 1] == '!' && !IsCData(doc, s.pos)
    requires doc[s.pos + 2] == '-' && doc[s.pos + 3] == '-' && CommentEnd(doc, s.pos + 4, '-', '-') == close < |doc|
    ensures Next(doc, s) == Next(doc, s.(pos := SkipSpace(doc, close + 1)))
  {
    hide CommentEnd, IsCData, ReadAfterCData, SkipSpace, StartTag, EndTag;
    assert Next(doc, s) == Bang(doc, s);
  }

  /** A comment makes no callback. */
  lemma CommentMakes(doc: string, s: State, marks: seq<Mark>)
    requires Inside(doc, s) && AreMarks(marks, '-') && At(doc, s.pos, Render(Comment(marks)))
    ensures Makes(doc, s, [], s.(pos := s.pos + |Render(Comment(marks))|))
  {
    hide At, Written, AreMarks, CommentEnd, IsCData, Makes, SkipSpace, Next;
    CommentAt(doc, s.pos, marks);
    CommentReads(doc, s.pos + 4, marks);
    var s' := s.(pos := s.pos + |Render(Comment(marks))|);
    CommentNext(doc, s, s'.pos - 1);
    NextSkips(doc, s');
    NothingMade(doc, s, s');
  }

  lemma TextMakes(doc: string, s: State, ps: seq<Piece>)
    requires Inside(doc, s) && s.tags != [] && IsText(ps) && At(doc, s.pos, RenderPieces(ps))
    requires Markup(doc, s.pos + |RenderPieces(ps)|)
    ensures Makes(doc, s, [Inner(Top(s.tags).name, Trimmed(ps))], s.(pos := s.pos + |RenderPieces(ps)|))
  {
    hide At, IsText, Step, Makes, Markup;
    InnerReads(doc, s, ps);
    MakesOne(doc, s, Inner(Top(s.tags).name, Trimmed(ps)), s.(pos := s.pos + |RenderPieces(ps)|));
  }

  lemma BlankMakes(doc: string, s: State, blank: string)
    requires Inside(doc, s) && IsBlank(blank) && At(doc, s.pos, blank)
    ensures Makes(doc, s, [], s.(pos := s.pos + |blank|))
  {
    hide At, Makes, SkipSpace, Next;
    AtIs(doc, s.pos, blank);
    BlankSkipped(doc, s.pos, blank);
    var s' := s.(pos := s.pos + |blank|);
    NextSkips(doc, s);
    NextSkips(doc, s');
    NothingMade(doc, s, s');
  }

  /** The element that holds what stands here, if any. */
  function Parent(s: State): string
  {
    if s.tags == [] then "" else Top(s.tags).name
  }

  lemma TagMarkup(doc: string, p: nat, open: string, name: string, a: seq<Attribute>, blank: string, close: string, more: string)
    requires Opens(open, close) && IsName(name) && At(doc, p, TagText(open, name, a, blank, close) + more)
    ensures Markup(doc, p)
  {
    hide IsName, TagText, At, Opens;
    AtBoth(doc, p, TagText(open, name, a, blank, close), more);
    TagAt(doc, p, open, name, a, blank, close);
    NotSection(doc, p);
  }

  lemma NotSection(doc: string, p: nat)
    requires p + 2 < |doc| && (doc[p + 1] != '!' || doc[p + 2] != '[')
    ensures !IsCData(doc, p)
  {
    if |doc| - p >= 9 {
      assert doc[p..p + 9][1] == doc[p + 1];
    }
  }

  /** All but text and blanks begin with markup. */
  lemma NodeMarkup(doc: string, p: nat, n: Node)
    requires ValidNode(n) && At(doc, p, Render(n)) && !n.Text? && !n.Blank?
    ensures Markup(doc, p)
  {
    hide IsName, AreAttributes, IsBlank, ValidNodes, TagText, At, Markup, Written, AreMarks, RenderAll;
    match n
    case Element(name, attributes, blank, content, tail) =>
      TagMarkup(doc, p, "<", name, attributes, blank, ">", RenderAll(content) + EndText(name, tail));
    case Full(name, attributes, blank) =>
      NoMore(TagText("<", name, attributes, blank, "/>"));
      TagMarkup(doc, p, "<", name, attributes, blank, "/>", "");
    case Instruction(name, attributes, blank) =>
      NoMore(TagText("<?", name, attributes, blank, "?>"));
      TagMarkup(doc, p, "<?", name, attributes, blank, "?>", "");
    case Comment(marks) =>
      CommentMarkup(doc, p, marks);
  }

  lemma NoMore(t: string)
    ensures t + "" == t
  {
  }

  lemma CommentMarkup(doc: string, p: nat, marks: seq<Mark>)
    requires At(doc, p, Render(Comment(marks)))
    ensures Markup(doc, p)
  {
    CommentAt(doc, p, marks);
  }

  lemma EndMarkup(doc: string, p: nat, name: string, tail: string)
    requires At(doc, p, EndText(name, tail))
    ensures Markup(doc, p)
  {
    EndAtTag(doc, p, name, tail);
    NotSection(doc, p);
  }

  lemma {:induction false} NodeMakes(doc: string, s: State, n: Node)
    requires ValidNode(n) && Inside(doc, s) && At(doc, s.pos, Render(n))
    requires n.Text? ==> s.tags != [] && Markup(doc, s.pos + |Render(n)|)
    ensures Makes(doc, s, Events(n, Parent(s)), s.(pos := s.pos + |Render(n)|))
    decreases n, 1
  {
    hide IsName, AreAttributes, IsBlank, TagText, At, Markup, Makes, RenderAll, Inside, IsText, AreMarks;
    match n
    case Element(_, _, _, _, _) => ElementMakes(doc, s, n);
    case Full(name, attributes, blank) => FullMakes(doc, s, name, attributes, blank);
    case Text(pieces) => TextMakes(doc, s, pieces);
    case Comment(marks) => CommentMakes(doc, s, marks);
    case Instruction(name, attributes, blank) => InstructionMakes(doc, s, name, attributes, blank);
    case Blank(blank) => BlankMakes(doc, s, blank);
  }

  lemma {:induction false} ElementMakes(doc: string, s: State, n: Node)
    requires ValidNode(n) && n.Element? && Inside(doc, s) && At(doc, s.pos, Render(n))
    ensures Makes(doc, s, Events(n, Parent(s)), s.(pos := s.pos + |Render(n)|))
    decreases n, 0
  {
    hide IsName, AreAttributes, IsBlank, TagText, At, Markup, Makes, RenderAll, Inside, EndText;
    var start, end := TagText("<", n.name, n.attributes, n.blank, ">"), EndText(n.name, n.tail);
    AtBoth(doc, s.pos, start, RenderAll(n.content) + end);
    AtBoth(doc, s.pos + |start|, RenderAll(n.content), end);
    StartMakes(doc, s, n.name, n.attributes, n.blank);
    var s1 := State(true, s.pos + |start|, s.tags + [Tag(n.name, false)]);
    var s2 := s1.(pos := s1.pos + |RenderAll(n.content)|);
    EndMarkup(doc, s2.pos, n.name, n.tail);
    NodesMake(doc, s1, n.content);
    var s3 := s.(pos := s2.pos + |end|);
    EndBack(doc, s, s1, s2, n.name, n.tail);
    MakesBoth(doc, s, [StartElement(n.name, Pairs(n.attributes))], s1, EventsOf(n.content, n.name), s2);
    MakesBoth(doc, s, [StartElement(n.name, Pairs(n.attributes))] + EventsOf(n.content, n.name), s2, [EndElement(n.name)], s3);
  }

  lemma EndBack(doc: string, s: State, s1: State, s2: State, name: string, tail: string)
    requires Inside(doc, s) && Inside(doc, s1) && s1.tags == s.tags + [Tag(name, false)] && IsBlank(tail)
    requires s2 == s1.(pos := s2.pos) && At(doc, s2.pos, EndText(name, tail))
    ensures Makes(doc, s2, [EndElement(name)], s.(pos := s2.pos + |EndText(name, tail)|))
  {
    hide At, IsBlank, Makes;
    AtIs(doc, s2.pos, EndText(name, tail));
    EndMakes(doc, s2, name, tail, s.tags);
  }

  lemma {:induction false} NodesMake(doc: string, s: State, ns: Nodes)
    requires ValidNodes(ns) && Inside(doc, s) && At(doc, s.pos, RenderAll(ns))
    requires if s.tags == [] then NoText(ns) else Markup(doc, s.pos + |RenderAll(ns)|)
    ensures Makes(doc, s, EventsOf(ns, Parent(s)), s.(pos := s.pos + |RenderAll(ns)|))
    decreases ns
  {
    hide At, Markup, Render, ValidNode, Makes, Events;
    if ns.Empty? {
      NothingMade(doc, s, s);
    } else {
      AtBoth(doc, s.pos, Render(ns.head), RenderAll(ns.tail));
      var s1 := s.(pos := s.pos + |Render(ns.head)|);
      AtIs(doc, s.pos, Render(ns.head));
      MoveInside(doc, s, s1);
      if ns.head.Text? && ns.tail.Nodes? {
        AtBoth(doc, s1.pos, Render(ns.tail.head), RenderAll(ns.tail.tail));
        NodeMarkup(doc, s1.pos, ns.tail.head);
      }
      NodeMakes(doc, s, ns.head);
      NodesMake(doc, s1, ns.tail);
      MakesBoth(doc, s, Events(ns.head, Parent(s)), s1, EventsOf(ns.tail, Parent(s)), s1.(pos := s1.pos + |RenderAll(ns.tail)|));
    }
  }

  lemma MoveInside(doc: string, s: State, s1: State)
    requires Inside(doc, s) && s1 == s.(pos := s1.pos) && s1.pos <= |doc|
    ensures Inside(doc, s1)
  {
  }

  // ----- documents ------------------------------------------------------------------------------------

  /** Outside any element, blanks are followed by markup or nothing. */
  lemma {:induction false} NodesBegin(doc: string, p: nat, ns: Nodes)
    requires ValidNodes(ns) && NoText(ns) && At(doc, p, RenderAll(ns)) && p + |RenderAll(ns)| == |doc|
    ensures var q := SkipSpace(doc, p);
      q < |doc| ==> doc[q] == '<'
    decreases ns
  {
    hide At, Markup, Render, ValidNode;
    if ns.Nodes? {
      AtBoth(doc, p, Render(ns.head), RenderAll(ns.tail));
      if ns.head.Blank? {
        BlankBegins(doc, p, ns.head);
        NodesBegin(doc, p + |Render(ns.head)|, ns.tail);
      } else {
        NodeMarkup(doc, p, ns.head);
        MarkupStays(doc, p);
      }
    }
  }

  lemma BlankBegins(doc: string, p: nat, n: Node)
    requires ValidNode(n) && n.Blank? && At(doc, p, Render(n))
    ensures p + |Render(n)| <= |doc| && SkipSpace(doc, p) == SkipSpace(doc, p + |Render(n)|)
  {
    BlankSkipped(doc, p, n.blank);
  }

  lemma MarkupStays(doc: string, p: nat)
    requires Markup(doc, p)
    ensures SkipSpace(doc, p) == p && doc[p] == '<'
  {
    NotBlank();
  }

  /** A document that is the text of trees, comments and instructions in any layout: its
      start, the callbacks of each in order, and nothing else. */
  lemma RenderedTreeParses(ns: Nodes)
    requires ValidNodes(ns) && NoText(ns)
    ensures Trace(RenderAll(ns), FIRST) == ([StartDocument] + EventsOf(ns, ""), Done)
  {
    hide ValidNodes, NoText, RenderAll, EventsOf, Makes, At;
    var doc := RenderAll(ns);
    WholeAt(doc);
    NodesBegin(doc, 0, ns);
    var s := State(true, 0, []);
    FirstStep(doc);
    hide Next;
    MakesTo(doc, FIRST, StartDocument, s);
    NodesMake(doc, s, ns);
    var end := State(true, |doc|, []);
    MakesBoth(doc, FIRST, [StartDocument], s, EventsOf(ns, ""), end);
    EndTrace(doc, FIRST, [StartDocument] + EventsOf(ns, ""), end);
  }

  lemma WholeAt(doc: string)
    ensures At(doc, 0, doc)
  {
    assert doc[0..|doc|] == doc;
  }

  lemma FirstStep(doc: string)
    requires var q := SkipSpace(doc, 0); q < |doc| ==> doc[q] == '<'
    ensures Step(doc, FIRST) == Emit(StartDocument, State(true, SkipSpace(doc, 0), []))
  {
    hide SkipSpace;
    NextSkips(doc, FIRST);
  }

  lemma EndTrace(doc: string, s: State, events: seq<Event>, end: State)
    requires Makes(doc, s, events, end) && end == State(true, |doc|, [])
    ensures Trace(doc, s) == (events, Done)
  {
    assert Step(doc, end) == Finish(end);
    assert Trace(doc, end) == ([], Done);
    assert events + [] == events;
  }
}
