/** What XMLParser reads: from any state between two callbacks, the next
    callback and the state in which it is made. */
module Xml {
  import opened Ascii

  datatype Error =
    | NoTagName | NoInfosName | BadName | NameUnterminated
    | EndWithoutStart | WrongEnd | EndUnterminated
    | Malformed | CommentUnterminated | CDataUnterminated | NoParent
    | ElementUnterminated | NoValue | ValueUnterminated | MissingEnd

  datatype Event =
    | StartDocument
    | Infos(name: string, attributes: seq<(string, string)>)
    | StartElement(name: string, attributes: seq<(string, string)>)
    | Inner(name: string, text: string)
    | EndElement(name: string)

  /** An open element; a full one opened and closed itself. */
  datatype Tag = Tag(name: string, full: bool)

  /** What a parser keeps from one call to the next, and what `save` stores. */
  datatype State = State(started: bool, pos: nat, tags: seq<Tag>)

  /** Only an element just opened can be full, and none opens before the document. */
  predicate Valid(doc: string, s: State)
  {
    && s.pos <= |doc| && (!s.started ==> s.tags == [])
    && forall i :: 0 <= i < |s.tags| - 1 ==> !s.tags[i].full
  }

  function Top(tags: seq<Tag>): Tag
    requires tags != []
  {
    tags[|tags| - 1]
  }

  function Pop(tags: seq<Tag>): seq<Tag>
    requires tags != []
  {
    tags[..|tags| - 1]
  }

  // ----- blanks -------------------------------------------------------------------

  function SkipSpace(doc: string, p: nat): (q: nat)
    requires p <= |doc|
    ensures p <= q <= |doc|
    ensures forall i :: p <= i < q ==> IsSpace(doc[i])
    ensures q < |doc| ==> !IsSpace(doc[q])
    decreases |doc| - p
  {
    if p < |doc| && IsSpace(doc[p]) then SkipSpace(doc, p + 1) else p
  }

  // ----- names and attributes ----------------------------------------------------------

  /** What a scan found and where it stopped, or why it failed. */
  datatype Scan<T> = Found(value: T, next: nat) | Bad(error: Error)

  function NameEnd(doc: string, p: nat): (q: nat)
    requires p <= |doc|
    ensures p <= q <= |doc|
    ensures forall i :: p <= i < q ==> IsXml(doc[i])
    ensures q < |doc| ==> !IsXml(doc[q])
    decreases |doc| - p
  {
    if p < |doc| && IsXml(doc[p]) then NameEnd(doc, p + 1) else p
  }

  /** The search for an end marker also finds the marker string's own terminator. */
  predicate EndsName(c: char, markers: string)
  {
    c in markers || c == '\0' || IsSpace(c)
  }

  /** parseXMLName */
  function ScanName(doc: string, p: nat, markers: string): (r: Scan<string>)
    requires p < |doc|
    ensures r.Found? ==> p < r.next < |doc| && r.value == doc[p..r.next]
  {
    if !IsAlpha(doc[p]) && doc[p] != '_' then Bad(BadName)
    else
      var q := NameEnd(doc, p + 1);
      if q == |doc| || !EndsName(doc[q], markers) then Bad(NameUnterminated) else Found(doc[p..q], q)
  }

  /** The closing quote of a value, backslash escaping one character; or the document's end. */
  function ValueEnd(doc: string, p: nat, quote: char): (q: nat)
    requires p <= |doc|
    ensures p <= q <= |doc|
    ensures q < |doc| ==> doc[q] == quote
    decreases |doc| - p
  {
    if p == |doc| || doc[p] == quote then p
    else
      var last := if doc[p] == '\\' then p + 1 else p;
      if last == |doc| then |doc| else ValueEnd(doc, last + 1, quote)
  }

  /** name = "value": whatever single character follows the name stands for '='. */
  function ScanAttribute(doc: string, p: nat): (r: Scan<(string, string)>)
    requires p < |doc|
    ensures r.Found? ==> p < r.next <= |doc|
  {
    var name := ScanName(doc, p, "=");
    if name.Bad? then Bad(name.error)
    else
      var equal := SkipSpace(doc, name.next);
      if equal == |doc| || equal + 1 == |doc| then Bad(NoValue) else ScanValue(doc, name.value, equal + 1)
  }

  function ScanValue(doc: string, name: string, p: nat): (r: Scan<(string, string)>)
    requires p < |doc|
    ensures r.Found? ==> p < r.next <= |doc|
  {
    var open := SkipSpace(doc, p);
    if open == |doc| then Bad(NoValue) else ScanQuoted(doc, name, open)
  }

  function ScanQuoted(doc: string, name: string, open: nat): (r: Scan<(string, string)>)
    requires open < |doc|
    ensures r.Found? ==> open < r.next <= |doc|
  {
    if (doc[open] != '\"' && doc[open] != '\'') || open + 1 == |doc| then Bad(NoValue)
    else
      var close := ValueEnd(doc, open + 1, doc[open]);
      if close == |doc| then Bad(ValueUnterminated) else Found((name, doc[open + 1..close]), close + 1)
  }

  /** The attributes, whether the element is full, and where its '>' is. */
  function ScanAttributes(doc: string, p: nat, infos: bool): (r: Scan<(seq<(string, string)>, bool)>)
    requires p <= |doc|
    ensures r.Found? ==> p <= r.next < |doc|
    decreases |doc| - p
  {
    var q := SkipSpace(doc, p);
    if q == |doc| then Bad(ElementUnterminated)
    else if doc[q] == '/' || (infos && doc[q] == '?') then
      if q + 1 == |doc| || doc[q + 1] != '>' then Bad(ElementUnterminated) else Found(([], doc[q] == '/'), q + 1)
    else if doc[q] == '>' then Found(([], false), q)
    else
      var first := ScanAttribute(doc, q);
      if first.Bad? then Bad(first.error) else WithAttribute(first.value, ScanAttributes(doc, first.next, infos))
  }

  function WithAttribute(a: (string, string), r: Scan<(seq<(string, string)>, bool)>): (r': Scan<(seq<(string, string)>, bool)>)
    ensures r'.Found? <==> r.Found?
    ensures r.Found? ==> r'.next == r.next
  {
    if r.Bad? then r else Found(([a] + r.value.0, r.value.1), r.next)
  }

  // ----- comments and character data --------------------------------------------------------

  /** Where the '>' is that follows the two delimiters, never looking back; or the document's end. */
  function CommentEnd(doc: string, p: nat, first: char, second: char): (q: nat)
    requires p <= |doc|
    ensures p <= q <= |doc|
    decreases |doc| - p
  {
    if p == |doc| then p
    else if doc[p] != first then CommentEnd(doc, p + 1, first, second)
    else if p + 1 == |doc| then |doc|
    else if doc[p + 1] != second then CommentEnd(doc, p + 2, first, second)
    else if p + 2 == |doc| then |doc|
    else if doc[p + 2] != '>' then CommentEnd(doc, p + 3, first, second)
    else p + 2
  }

  /** Character data up to "]]>": brackets that begin no such end are dropped. */
  function CData(doc: string, p: nat): (r: Scan<string>)
    requires p <= |doc|
    ensures r.Found? ==> p <= r.next < |doc|
    decreases |doc| - p
  {
    if p == |doc| then Bad(CDataUnterminated)
    else if doc[p] != ']' then WithChar(doc[p], CData(doc, p + 1))
    else if p + 1 == |doc| then Bad(CDataUnterminated)
    else if doc[p + 1] != ']' then WithChar(doc[p + 1], CData(doc, p + 2))
    else if p + 2 == |doc| then Bad(CDataUnterminated)
    else if doc[p + 2] != '>' then WithChar(doc[p + 2], CData(doc, p + 3))
    else Found("", p + 2)
  }

  function WithChar(c: char, r: Scan<string>): (r': Scan<string>)
    ensures r'.Found? <==> r.Found?
    ensures r.Found? ==> r'.next == r.next
  {
    if r.Bad? then r else Found([c] + r.value, r.next)
  }

  predicate IsCData(doc: string, p: nat)
    requires p <= |doc|
  {
    |doc| - p >= 9 && doc[p..p + 9] == "<![CDATA["
  }

  /** The rest of an element's text, of which `buffer` is read, its last `spaces`
      characters being blank: up to the next markup that is not character data. */
  function ReadInner(doc: string, p: nat, buffer: string, spaces: nat): (r: Scan<string>)
    requires p <= |doc| && spaces <= |buffer|
    ensures r.Found? ==> p <= r.next < |doc| && doc[r.next] == '<'
    decreases |doc| - p
  {
    if p == |doc| then Bad(MissingEnd)
    else if doc[p] != '<' then ReadInner(doc, p + 1, buffer + [doc[p]], if IsSpace(doc[p]) then spaces + 1 else 0)
    else if !IsCData(doc, p) then Found(buffer[..|buffer| - spaces], p)
    else ReadAfterCData(doc, p, buffer)
  }

  function ReadAfterCData(doc: string, p: nat, buffer: string): (r: Scan<string>)
    requires p + 9 <= |doc|
    ensures r.Found? ==> p < r.next < |doc| && doc[r.next] == '<'
    decreases |doc| - p, 0
  {
    var data := CData(doc, p + 9);
    if data.Bad? then data else ReadInner(doc, data.next + 1, buffer + data.value, 0)
  }

  // ----- the next callback ------------------------------------------------------------------------

  datatype Outcome = Emit(event: Event, next: State) | Finish(end: State) | Fail(error: Error)

  /** Bounds the callbacks still to come. */
  function Ahead(doc: string, s: State): nat
    requires s.pos <= |doc|
  {
    3 * (|doc| - s.pos) + |s.tags| + if s.started then 0 else 1
  }

  predicate Follows(doc: string, s: State, o: Outcome)
    requires Valid(doc, s)
  {
    && (o.Emit? ==> Valid(doc, o.next) && Ahead(doc, o.next) < Ahead(doc, s))
    && (o.Finish? ==> Valid(doc, o.end) && o.end.pos == |doc| && o.end.tags == [] && o.end.started)
  }

  function InnerOutcome(s: State, text: Scan<string>): Outcome
    requires s.tags != []
  {
    if text.Bad? then Fail(text.error) else Emit(Inner(Top(s.tags).name, text.value), s.(pos := text.next))
  }

  /** At "</". */
  function EndTag(doc: string, s: State): (o: Outcome)
    requires Valid(doc, s) && s.started && s.pos + 1 < |doc|
    ensures Follows(doc, s, o)
  {
    if s.tags == [] then Fail(EndWithoutStart)
    else
      var name := Top(s.tags).name;
      var p := s.pos + 2;
      if p - 1 + |name| >= |doc| || doc[p..p + |name|] != name then Fail(WrongEnd)
      else
        var close := SkipSpace(doc, p + |name|);
        if close == |doc| || doc[close] != '>' then Fail(EndUnterminated)
        else Emit(EndElement(name), s.(pos := SkipSpace(doc, close + 1), tags := Pop(s.tags)))
  }

  /** At '<' before a name or a question mark. */
  function StartTag(doc: string, s: State): (o: Outcome)
    requires Valid(doc, s) && s.started && s.pos + 1 < |doc|
    requires s.tags != [] ==> !Top(s.tags).full
    ensures Follows(doc, s, o)
  {
    var infos := doc[s.pos + 1] == '?';
    var p := if infos then s.pos + 2 else s.pos + 1;
    if p == |doc| then Fail(NoInfosName)
    else
      var name := ScanName(doc, p, if infos then "?" else "/>");
      if name.Bad? then Fail(name.error)
      else
        var attributes := ScanAttributes(doc, name.next, infos);
        if attributes.Bad? then Fail(attributes.error)
        else Opened(doc, s, infos, name.value, attributes.value, attributes.next + 1)
  }

  /** A start element or a processing instruction that ends before `p`. */
  function Opened(doc: string, s: State, infos: bool, name: string, attributes: (seq<(string, string)>, bool), p: nat)
    : (o: Outcome)
    requires Valid(doc, s) && s.started && s.pos + 1 < p <= |doc|
    requires s.tags != [] ==> !Top(s.tags).full
    ensures Follows(doc, s, o)
  {
    var s' := s.(pos := SkipSpace(doc, p));
    if infos then Emit(Infos(name, attributes.0), s')
    else Emit(StartElement(name, attributes.0), s'.(tags := s.tags + [Tag(name, attributes.1)]))
  }

  /** From outside any text, with no full element on top. */
  function Next(doc: string, s: State): (o: Outcome)
    requires Valid(doc, s) && (s.tags != [] ==> !Top(s.tags).full)
    ensures Follows(doc, s, o)
    decreases |doc| - s.pos
  {
    if s.pos == |doc| then
      if !s.started then Emit(StartDocument, s.(started := true))
      else if s.tags != [] then Fail(MissingEnd)
      else Finish(s)
    else if doc[s.pos] != '<' then
      if IsSpace(doc[s.pos]) then Next(doc, s.(pos := s.pos + 1))
      else if s.tags == [] then Fail(NoParent)
      else InnerOutcome(s, ReadInner(doc, s.pos + 1, [doc[s.pos]], 0))
    else if !s.started then Emit(StartDocument, s.(started := true))
    else if s.pos + 1 == |doc| then Fail(NoTagName)
    else if doc[s.pos + 1] == '/' then EndTag(doc, s)
    else if doc[s.pos + 1] == '!' then Bang(doc, s)
    else StartTag(doc, s)
  }

  /** At "<!". */
  function Bang(doc: string, s: State): (o: Outcome)
    requires Valid(doc, s) && s.started && s.pos + 1 < |doc| && doc[s.pos] == '<' && doc[s.pos + 1] == '!'
    requires s.tags != [] ==> !Top(s.tags).full
    ensures Follows(doc, s, o)
    decreases |doc| - s.pos, 0
  {
    var p := s.pos + 2;
    if p == |doc| then Fail(Malformed)
    else if IsCData(doc, s.pos) then
      if s.tags == [] then Fail(NoParent) else InnerOutcome(s, ReadAfterCData(doc, s.pos, ""))
    else if p + 1 == |doc| then Fail(Malformed)
    else
      var close := CommentEnd(doc, p + 2, doc[p], doc[p + 1]);
      if close == |doc| then Fail(CommentUnterminated)
      else Next(doc, s.(pos := SkipSpace(doc, close + 1)))
  }

  /** The next callback from any state a parser can be left in. */
  function Step(doc: string, s: State): (o: Outcome)
    requires Valid(doc, s)
    ensures Follows(doc, s, o)
  {
    if s.tags != [] && Top(s.tags).full then
      Emit(EndElement(Top(s.tags).name), s.(tags := Pop(s.tags)))
    else Next(doc, s)
  }
}
