/** XMLParser: one long loop over the document, which any callback may leave. */
module XmlParser {
  import opened Options
  import opened Ascii
  import opened Xml
  import opened XmlRuns

  function WithAll(before: seq<(string, string)>, r: Scan<(seq<(string, string)>, bool)>): Scan<(seq<(string, string)>, bool)>
  {
    if r.Bad? then r else Found((before + r.value.0, r.value.1), r.next)
  }

  lemma WithOneMore(before: seq<(string, string)>, a: (string, string), r: Scan<(seq<(string, string)>, bool)>)
    ensures WithAll(before, WithAttribute(a, r)) == WithAll(before + [a], r)
  {
    if r.Found? {
      assert before + ([a] + r.value.0) == before + [a] + r.value.0;
    }
  }

  lemma WithNone(r: Scan<(seq<(string, string)>, bool)>)
    ensures WithAll([], r) == r
  {
    if r.Found? {
      assert [] + r.value.0 == r.value.0;
    }
  }

  function WithText(before: string, r: Scan<string>): Scan<string>
  {
    if r.Bad? then r else Found(before + r.value, r.next)
  }

  lemma WithOneChar(before: string, c: char, r: Scan<string>)
    ensures WithText(before, WithChar(c, r)) == WithText(before + [c], r)
  {
    if r.Found? {
      assert before + ([c] + r.value) == before + [c] + r.value;
    }
  }

  /** What comes next from inside the loop, where a text may be under way. */
  function Pending(doc: string, s: State, isInner: bool, buffer: string, spaces: nat): (o: Outcome)
    requires Valid(doc, s) && (s.tags != [] ==> !Top(s.tags).full)
    requires spaces <= |buffer| && (isInner ==> s.tags != [] && s.started)
    ensures o.Emit? ==> Valid(doc, o.next)
    ensures o.Finish? ==> Valid(doc, o.end)
  {
    if isInner then InnerOutcome(s, ReadInner(doc, s.pos, buffer, spaces)) else Next(doc, s)
  }

  /** `log` and what `r` still does add up to `base` and what `total` does. */
  predicate Adds(base: seq<Event>, total: Return, log: seq<Event>, r: Return)
  {
    base + total.events == log + r.events && total.result == r.result && (total.result.Failed? || total.next == r.next)
  }

  lemma AddsOne(base: seq<Event>, total: Return, log: seq<Event>, e: Event, r: Return)
    requires Adds(base, total, log, With(e, r))
    ensures Adds(base, total, log + [e], r)
  {
    assert log + ([e] + r.events) == log + [e] + r.events;
  }

  class XMLParser {
    const doc: string
    var started: bool
    var pos: nat
    var tags: seq<Tag>
    var error: Option<Error>
    var log: seq<Event>
    var ends: seq<Option<Error>>

    function Current(): State
      reads this
    {
      State(started, pos, tags)
    }

    predicate Ok()
      reads this
    {
      Valid(doc, Current())
    }

    /** Between two markups: no element waits to be closed. */
    predicate Open()
      reads this
    {
      Ok() && (tags != [] ==> !Top(tags).full)
    }

    constructor (doc: string)
      ensures this.doc == doc && Ok() && Current() == FIRST && error == None && log == [] && ends == []
    {
      this.doc := doc;
      started, pos, tags, error, log, ends := false, 0, [], None, [], [];
    }

    // ----- scanning ------------------------------------------------------------

    method SkipSpaces()
      requires pos <= |doc|
      modifies `pos
      ensures pos == SkipSpace(doc, old(pos))
    {
      while pos < |doc| && IsSpace(doc[pos])
        invariant pos <= |doc| && SkipSpace(doc, pos) == SkipSpace(doc, old(pos))
      {
        pos := pos + 1;
      }
    }

    method ParseXMLName(markers: string) returns (r: Scan<string>)
      requires pos < |doc|
      modifies `pos
      ensures r == ScanName(doc, old(pos), markers)
      ensures r.Found? ==> pos == r.next
    {
      if !IsAlpha(doc[pos]) && doc[pos] != '_' {
        return Bad(BadName);
      }
      var first := pos;
      pos := pos + 1;
      while pos < |doc| && IsXml(doc[pos])
        invariant first < pos <= |doc| && NameEnd(doc, pos) == NameEnd(doc, first + 1)
      {
        pos := pos + 1;
      }
      if pos == |doc| || !EndsName(doc[pos], markers) {
        return Bad(NameUnterminated);
      }
      return Found(doc[first..pos], pos);
    }

    method ParseAttributes(infos: bool) returns (r: Scan<(seq<(string, string)>, bool)>)
      requires pos <= |doc|
      modifies `pos
      ensures r == ScanAttributes(doc, old(pos), infos)
      ensures r.Found? ==> pos == r.next
    {
      hide ScanAttribute, SkipSpace;
      var attributes := [];
      ghost var total := ScanAttributes(doc, pos, infos);
      WithNone(total);
      while pos < |doc|
        invariant pos <= |doc| && total == WithAll(attributes, ScanAttributes(doc, pos, infos))
        decreases |doc| - pos
      {
        SkipSpaces();
        if pos == |doc| {
          return Bad(ElementUnterminated);
        }
        if (infos && doc[pos] == '?') || doc[pos] == '/' {
          var full := doc[pos] == '/';
          pos := pos + 1;
          if pos == |doc| || doc[pos] != '>' {
            return Bad(ElementUnterminated);
          }
          assert attributes + [] == attributes;
          return Found((attributes, full), pos);
        }
        if doc[pos] == '>' {
          assert attributes + [] == attributes;
          return Found((attributes, false), pos);
        }
        var attribute := ParseAttribute();
        if attribute.Bad? {
          return Bad(attribute.error);
        }
        WithOneMore(attributes, attribute.value, ScanAttributes(doc, pos, infos));
        attributes := attributes + [attribute.value];
      }
      return Bad(ElementUnterminated);
    }

    method ParseAttribute() returns (r: Scan<(string, string)>)
      requires pos < |doc|
      modifies `pos
      ensures r == ScanAttribute(doc, old(pos))
      ensures r.Found? ==> pos == r.next
    {
      hide ScanName, SkipSpace, ScanValue;
      var key := ParseXMLName("=");
      if key.Bad? {
        return Bad(key.error);
      }
      SkipSpaces();
      if pos == |doc| {
        return Bad(NoValue);
      }
      pos := pos + 1;
      if pos == |doc| {
        return Bad(NoValue);
      }
      r := ParseValue(key.value);
    }

    method ParseValue(name: string) returns (r: Scan<(string, string)>)
      requires pos < |doc|
      modifies `pos
      ensures r == ScanValue(doc, name, old(pos))
      ensures r.Found? ==> pos == r.next
    {
      hide SkipSpace;
      SkipSpaces();
      if pos == |doc| {
        return Bad(NoValue);
      }
      r := ParseQuoted(name);
    }

    method ParseQuoted(name: string) returns (r: Scan<(string, string)>)
      requires pos < |doc|
      modifies `pos
      ensures r == ScanQuoted(doc, name, old(pos))
      ensures r.Found? ==> pos == r.next
    {
      var delimiter := doc[pos];
      if delimiter != '\"' && delimiter != '\'' {
        return Bad(NoValue);
      }
      pos := pos + 1;
      if pos == |doc| {
        return Bad(NoValue);
      }
      var value := pos;
      while doc[pos] != delimiter
        invariant value <= pos < |doc| && ValueEnd(doc, pos, delimiter) == ValueEnd(doc, value, delimiter)
        decreases |doc| - pos
      {
        if doc[pos] == '\\' {
          pos := pos + 1;
          if pos == |doc| {
            return Bad(ValueUnterminated);
          }
        }
        pos := pos + 1;
        if pos == |doc| {
          return Bad(ValueUnterminated);
        }
      }
      pos := pos + 1;
      return Found((name, doc[value..pos - 1]), pos);
    }

    /** Past the '>' of a comment, from just behind its "<!". */
    method SkipComment() returns (failure: Option<Error>)
      requires pos < |doc|
      modifies `pos
      ensures pos <= |doc|
      ensures failure == (if old(pos) + 1 == |doc| then Some(Malformed)
                          else if CommentEnd(doc, old(pos) + 2, doc[old(pos)], doc[old(pos) + 1]) == |doc| then Some(CommentUnterminated)
                          else None)
      ensures failure.None? ==> pos == CommentEnd(doc, old(pos) + 2, doc[old(pos)], doc[old(pos) + 1])
    {
      var delimiter1 := doc[pos];
      pos := pos + 1;
      if pos == |doc| {
        return Some(Malformed);
      }
      var delimiter2 := doc[pos];
      pos := pos + 1;
      while pos < |doc|
        invariant old(pos) + 2 <= pos <= |doc|
        invariant CommentEnd(doc, pos, delimiter1, delimiter2) == CommentEnd(doc, old(pos) + 2, delimiter1, delimiter2)
        decreases |doc| - pos
      {
        if doc[pos] == delimiter1 {
          pos := pos + 1;
          if pos == |doc| {
            return Some(CommentUnterminated);
          }
          if doc[pos] == delimiter2 {
            pos := pos + 1;
            if pos == |doc| {
              return Some(CommentUnterminated);
            }
            if doc[pos] == '>' {
              return None;
            }
          }
        }
        pos := pos + 1;
      }
      return Some(CommentUnterminated);
    }

    /** Character data added to `before`, up to the '>' of its end. */
    method ReadCData(before: string) returns (r: Scan<string>)
      requires pos <= |doc|
      modifies `pos
      ensures pos <= |doc|
      ensures r == WithText(before, CData(doc, old(pos)))
      ensures r.Found? ==> pos == r.next
    {
      var buffer := before;
      ghost var total := WithText(before, CData(doc, pos));
      while pos < |doc|
        invariant pos <= |doc| && total == WithText(buffer, CData(doc, pos))
        decreases |doc| - pos
      {
        ghost var p := pos;
        if doc[pos] == ']' {
          pos := pos + 1;
          if pos == |doc| {
            return Bad(CDataUnterminated);
          }
          if doc[pos] == ']' {
            pos := pos + 1;
            if pos == |doc| {
              return Bad(CDataUnterminated);
            }
            if doc[pos] == '>' {
              assert buffer + "" == buffer;
              return Found(buffer, pos);
            }
          }
        }
        WithOneChar(buffer, doc[pos], CData(doc, pos + 1));
        buffer := buffer + [doc[pos]];
        pos := pos + 1;
      }
      return Bad(CDataUnterminated);
    }

    // ----- elements ----------------------------------------------------------------

    /** An end element, its callback not yet made. */
    method ParseEnd() returns (o: Outcome)
      requires Ok() && started && pos + 1 < |doc|
      modifies `pos, `tags
      ensures o == EndTag(doc, old(Current()))
      ensures o.Emit? ==> Current() == o.next
    {
      hide SkipSpace;
      if tags == [] {
        return Fail(EndWithoutStart);
      }
      var name := Top(tags).name;
      pos := pos + 1;
      if pos + |name| >= |doc| || doc[pos + 1..pos + 1 + |name|] != name {
        return Fail(WrongEnd);
      }
      pos := pos + 1 + |name|;
      SkipSpaces();
      if pos == |doc| || doc[pos] != '>' {
        return Fail(EndUnterminated);
      }
      pos := pos + 1;
      SkipSpaces();
      tags := Pop(tags);
      return Emit(EndElement(name), Current());
    }

    /** A start element or processing instruction, its callback not yet made. */
    method ParseStart() returns (o: Outcome)
      requires Ok() && started && pos + 1 < |doc| && (tags != [] ==> !Top(tags).full)
      modifies `pos, `tags
      ensures o == StartTag(doc, old(Current()))
      ensures o.Emit? ==> Current() == o.next
    {
      hide SkipSpace, ScanName, ScanAttributes;
      pos := pos + 1;
      var infos := doc[pos] == '?';
      if infos {
        pos := pos + 1;
        if pos == |doc| {
          return Fail(NoInfosName);
        }
      }
      var name := ParseXMLName(if infos then "?" else "/>");
      if name.Bad? {
        return Fail(name.error);
      }
      var attributes := ParseAttributes(infos);
      if attributes.Bad? {
        return Fail(attributes.error);
      }
      pos := pos + 1;
      SkipSpaces();
      if infos {
        return Emit(Infos(name.value, attributes.value.0), Current());
      }
      tags := tags + [Tag(name.value, attributes.value.1)];
      return Emit(StartElement(name.value, attributes.value.0), Current());
    }

    /** A comment, or the character data of a text. */
    method ParseBang(isInner: bool, buffer: string, spaces: nat) returns (failure: Option<Error>, isInner': bool, buffer': string, spaces': nat)
      requires Ok() && started && (tags != [] ==> !Top(tags).full) && spaces <= |buffer| && (isInner ==> tags != [])
      requires pos + 1 < |doc| && doc[pos] == '<' && doc[pos + 1] == '!' && (isInner ==> IsCData(doc, pos))
      modifies `pos
      ensures spaces' <= |buffer'| && (isInner' ==> tags != [])
      ensures pos <= |doc| && (failure.None? ==> pos > old(pos))
      ensures var before := Pending(doc, old(Current()), isInner, buffer, spaces);
        if failure.Some? then before == Fail(failure.value)
        else Pending(doc, Current(), isInner', buffer', spaces') == before
    {
      hide SkipSpace, CommentEnd, CData, StartTag, EndTag;
      isInner', buffer', spaces' := isInner, buffer, spaces;
      ghost var s := Current();
      var from := pos;
      BangIs(doc, s, isInner, buffer, spaces);
      pos := pos + 2;
      if pos == |doc| {
        return Some(Malformed), isInner, buffer, spaces;
      }
      if isInner || IsCData(doc, from) {
        if tags == [] {
          return Some(NoParent), isInner, buffer, spaces;
        }
        hide Bang;
        pos := pos + 7;
        var text := ReadCData(if isInner then buffer else "");
        if text.Bad? {
          return Some(text.error), isInner, buffer, spaces;
        }
        pos := pos + 1;
        return None, true, text.value, 0;
      }
      failure := SkipComment();
      if failure.Some? {
        return;
      }
      pos := pos + 1;
      SkipSpaces();
    }

    // ----- the whole loop ------------------------------------------------------------

    /** What is still to come of this call, with every callback so far on the log. */
    ghost predicate Owes(base: seq<Event>, total: Return, o: Outcome, keep: nat -> bool)
      reads this
    {
      && Ok() && (o.Emit? ==> Valid(doc, o.next)) && (o.Finish? ==> Valid(doc, o.end))
      && Adds(base, total, log, Resume(doc, Current(), o, keep, |log|))
    }

    /** A callback is made; what its handler answered decides what the call still owes. */
    ghost method Called(base: seq<Event>, total: Return, e: Event, keep: nat -> bool, before: seq<Event>, s: State)
      requires log == before + [e] && Ok() && Valid(doc, s)
      requires Adds(base, total, before, Resume(doc, s, Emit(e, Current()), keep, |before|))
      ensures keep(|before|) ==> Owes(base, total, Step(doc, Current()), keep)
      ensures !keep(|before|) ==>
        base + total.events == log && total.next == Current() && total.result == Stop(doc, e, Current())
    {
      hide Step, Valid;
      if keep(|before|) {
        AddsOne(base, total, before, e, Resume(doc, Current(), Step(doc, Current()), keep, |log|));
      }
    }

    ghost method Over(base: seq<Event>, total: Return, o: Outcome, keep: nat -> bool)
      requires Owes(base, total, o, keep) && !o.Emit?
      ensures log == base + total.events
      ensures o.Fail? ==> total.result == Failed(o.error)
      ensures o.Finish? ==> total.result == Done && total.next == o.end
    {
      hide Valid;
      assert log + [] == log;
    }

    /** The callback `e`, in the state just reached. */
    method Callback(ghost base: seq<Event>, ghost total: Return, e: Event, keep: nat -> bool, ghost s: State)
      returns (go: bool)
      requires Ok() && Valid(doc, s)
      requires Adds(base, total, log, Resume(doc, s, Emit(e, Current()), keep, |log|))
      modifies `log
      ensures go ==> Ok() && Owes(base, total, Step(doc, Current()), keep)
      ensures !go ==> base + total.events == log && total.next == Current() && total.result == Stop(doc, e, Current())
    {
      hide Step, Valid, Stop, Resume;
      ghost var before := log;
      log := log + [e];
      Called(base, total, e, keep, before, s);
      go := keep(|log| - 1);
    }

    /** A full element on top is closed first. */
    method CloseFull(ghost base: seq<Event>, ghost total: Return, keep: nat -> bool) returns (go: bool, result: Result)
      requires Ok() && Owes(base, total, Step(doc, Current()), keep) && tags != [] && Top(tags).full
      modifies `tags, `log
      ensures tags == Pop(old(tags))
      ensures go ==> Ok() && Owes(base, total, Step(doc, Current()), keep)
      ensures !go ==> log == base + total.events && result == total.result && Current() == total.next && Ok()
      ensures !go ==> !result.Failed?
    {
      hide Next;
      ghost var s := Current();
      var name := Top(tags).name;
      tags := Pop(tags);
      go := Callback(base, total, EndElement(name), keep, s);
      result := if pos == |doc| && tags == [] then Done else Paused;
    }

    /** A markup's callback, its answer, and the end of an element full from the start. */
    method Element(ghost base: seq<Event>, ghost total: Return, o: Outcome, keep: nat -> bool, ghost s: State)
      returns (go: bool, result: Result)
      requires Ok() && Valid(doc, s) && o.Emit? && Current() == o.next && (tags != [] ==> Top(tags).full ==> o.event.StartElement?)
      requires o.event.StartElement? ==> tags != []
      requires !o.event.StartDocument? && !o.event.Inner?
      requires Adds(base, total, log, Resume(doc, s, o, keep, |log|))
      modifies `tags, `log
      ensures go ==> Open() && Owes(base, total, Next(doc, Current()), keep)
      ensures !go ==> log == base + total.events && result == total.result && Current() == total.next && Ok()
      ensures !go ==> !result.Failed?
    {
      hide Next, Resume;
      go := Callback(base, total, o.event, keep, s);
      result := if pos == |doc| && tags == [] then Done else Paused;
      if go && o.event.StartElement? && Top(tags).full {
        go, result := CloseFull(base, total, keep);
      }
    }

    /** A character outside markup. */
    method Character(isInner: bool, buffer: string, spaces: nat) returns (failure: Option<Error>, isInner': bool, buffer': string, spaces': nat)
      requires Open() && spaces <= |buffer| && (isInner ==> tags != [] && started)
      requires pos < |doc| && doc[pos] != '<'
      modifies `pos
      ensures spaces' <= |buffer'| && (isInner' ==> tags != [] && started) && pos == old(pos) + 1
      ensures var before := Pending(doc, old(Current()), isInner, buffer, spaces);
        if failure.Some? then before == Fail(failure.value)
        else Pending(doc, Current(), isInner', buffer', spaces') == before
    {
      failure, isInner', buffer', spaces' := None, isInner, buffer, spaces;
      if isInner {
        buffer' := buffer + [doc[pos]];
        spaces' := if IsSpace(doc[pos]) then spaces + 1 else 0;
      } else if !IsSpace(doc[pos]) {
        if tags == [] {
          failure := Some(NoParent);
        } else {
          isInner', buffer', spaces' := true, [doc[pos]], 0;
        }
      }
      pos := pos + 1;
    }

    /** parse(), behind its check for an earlier error. Every callback is a log
        entry; handler `i` answers `keep(i)`. */
    method Run(keep: nat -> bool) returns (result: Result)
      requires Ok() && error == None
      modifies `started, `pos, `tags, `log, `error
      ensures var r := Call(doc, old(Current()), keep, |old(log)|);
        log == old(log) + r.events && result == r.result && (!result.Failed? ==> Ok() && Current() == r.next && error == None)
        && (result.Failed? ==> error == Some(result.error))
    {
      hide Step, Next, StartTag, EndTag, Bang, ReadInner, Resume, IsCData, Stop, ReadAfterCData;
      ghost var base, total := log, Call(doc, Current(), keep, |log|);
      while tags != [] && Top(tags).full
        invariant Ok() && error == None && Owes(base, total, Step(doc, Current()), keep)
        decreases |tags|
      {
        var go;
        go, result := CloseFull(base, total, keep);
        if !go {
          return;
        }
      }
      StepIsNext(doc, Current());
      result := Loop(base, total, keep);
    }

    method Loop(ghost base: seq<Event>, ghost total: Return, keep: nat -> bool) returns (result: Result)
      requires error == None && Open() && Owes(base, total, Next(doc, Current()), keep)
      modifies `started, `pos, `tags, `log, `error
      ensures log == base + total.events && result == total.result
      ensures !result.Failed? ==> Ok() && Current() == total.next && error == None
      ensures result.Failed? ==> error == Some(result.error)
    {
      hide Step, Next, StartTag, EndTag, Bang, ReadInner, Resume, IsCData, Stop, ReadAfterCData, Adds;
      var isInner, buffer, spaces: nat := false, "", 0;
      var failure: Option<Error>, go: bool;
      while pos < |doc|
        invariant error == None && Open()
        invariant spaces <= |buffer| && (isInner ==> tags != [] && started)
        invariant Owes(base, total, Pending(doc, Current(), isInner, buffer, spaces), keep)
        decreases |doc| - pos
      {
        ghost var s := Current();
        ghost var o := Pending(doc, s, isInner, buffer, spaces);
        if doc[pos] != '<' {
          failure, isInner, buffer, spaces := Character(isInner, buffer, spaces);
          Moved(doc, s, Current(), o, keep, base, total, log);
        } else {
          if !started {
            go := Start(base, total, keep);
            if !go {
              return Paused;
            }
          }
          if isInner && !IsCData(doc, pos) {
            go := Text(base, total, keep, buffer, spaces);
            if !go {
              return Paused;
            }
            isInner, buffer, spaces := false, "", 0;
          }
          s, o := Current(), Pending(doc, Current(), isInner, buffer, spaces);
          MarkupIs(doc, s, isInner, buffer, spaces);
          if pos + 1 == |doc| {
            failure := Some(NoTagName);
          } else if doc[pos + 1] == '!' {
            failure, isInner, buffer, spaces := ParseBang(isInner, buffer, spaces);
            Moved(doc, s, Current(), o, keep, base, total, log);
          } else {
            failure, go, result := Markup(base, total, keep);
            if failure.None? && !go {
              return;
            }
          }
        }
        if failure.Some? {
          FailedNow(doc, s, failure.value, keep, base, total, log);
          error := failure;
          return Failed(failure.value);
        }
      }
      result := AtEnd(base, total, keep, isInner, buffer, spaces);
    }

    /** The document starts before its first markup. */
    method Start(ghost base: seq<Event>, ghost total: Return, keep: nat -> bool) returns (go: bool)
      requires pos < |doc| ==> doc[pos] == '<'
      requires !started && Open() && Owes(base, total, Next(doc, Current()), keep)
      modifies `started, `log
      ensures started && tags == []
      ensures go ==> Open() && Owes(base, total, Next(doc, Current()), keep)
      ensures !go ==> log == base + total.events && Paused == total.result && Current() == total.next && Ok()
    {
      hide Resume, StartTag, EndTag, Bang;
      ghost var s := Current();
      started := true;
      go := Callback(base, total, StartDocument, keep, s);
    }

    /** The text before a markup, its blank end left out. */
    method Text(ghost base: seq<Event>, ghost total: Return, keep: nat -> bool, buffer: string, spaces: nat) returns (go: bool)
      requires pos < |doc| && doc[pos] == '<' && !IsCData(doc, pos)
      requires started && Open() && tags != [] && spaces <= |buffer|
      requires Owes(base, total, Pending(doc, Current(), true, buffer, spaces), keep)
      modifies `log
      ensures go ==> Open() && Owes(base, total, Next(doc, Current()), keep)
      ensures !go ==> log == base + total.events && Paused == total.result && Current() == total.next && Ok()
    {
      hide Resume, Next, IsCData;
      go := Callback(base, total, Inner(Top(tags).name, buffer[..|buffer| - spaces]), keep, Current());
    }

    /** A start or end element, or a processing instruction. */
    method Markup(ghost base: seq<Event>, ghost total: Return, keep: nat -> bool)
      returns (failure: Option<Error>, go: bool, result: Result)
      requires started && Open()
      requires pos + 1 < |doc| && doc[pos] == '<' && doc[pos + 1] != '!'
      requires Owes(base, total, Next(doc, Current()), keep)
      modifies `pos, `tags, `log
      ensures failure.Some? ==> Next(doc, old(Current())) == Fail(failure.value) && log == old(log)
      ensures failure.None? && go ==> Open() && Owes(base, total, Next(doc, Current()), keep)
      ensures failure.None? && go ==> pos > old(pos)
      ensures failure.None? && !go ==> log == base + total.events && result == total.result && Current() == total.next && Ok()
      ensures failure.None? && !go ==> !result.Failed?
    {
      hide Resume, StartTag, EndTag, Bang;
      ghost var s := Current();
      var o: Outcome;
      if doc[pos + 1] == '/' {
        o := ParseEnd();
      } else {
        o := ParseStart();
      }
      assert o == Next(doc, s);
      if o.Fail? {
        return Some(o.error), false, Paused;
      }
      TagsEmit(doc, s);
      Moving(doc, s);
      hide Next;
      failure := None;
      go, result := Element(base, total, o, keep, s);
    }

    /** The document has been read to its end. */
    method AtEnd(ghost base: seq<Event>, ghost total: Return, keep: nat -> bool, isInner: bool, buffer: string, spaces: nat)
      returns (result: Result)
      requires error == None && pos == |doc| && spaces <= |buffer| && (isInner ==> tags != [] && started)
      requires Open()
      requires Owes(base, total, Pending(doc, Current(), isInner, buffer, spaces), keep)
      modifies `started, `log, `error
      ensures log == base + total.events && result == total.result
      ensures !result.Failed? ==> Ok() && Current() == total.next && error == None
      ensures result.Failed? ==> error == Some(result.error)
    {
      hide Resume, StartTag, EndTag, Bang;
      if !started {
        var go := Start(base, total, keep);
        if !go {
          return Paused;
        }
      } else if tags != [] {
        Over(base, total, Fail(MissingEnd), keep);
        error := Some(MissingEnd);
        return Failed(MissingEnd);
      }
      Over(base, total, Finish(Current()), keep);
      return Done;
    }

    /** parse(ex): nothing more once it has failed; the end of the document is told
        unless the parser is only paused. */
    method Parse(keep: nat -> bool) returns (result: Result)
      requires error.None? ==> Ok()
      modifies `started, `pos, `tags, `log, `error, `ends
      ensures old(error).Some? ==> result == Failed(old(error).value) && log == old(log) && ends == old(ends)
      ensures old(error).None? ==>
        var r := Call(doc, old(Current()), keep, |old(log)|);
        log == old(log) + r.events && result == r.result
        && (!result.Failed? ==> Ok() && Current() == r.next && error == None)
        && ends == (if result == Paused then old(ends) else old(ends) + [if result.Failed? then Some(result.error) else None])
      ensures error == if result.Failed? then Some(result.error) else None
    {
      hide Call, Valid;
      if error.Some? {
        return Failed(error.value);
      }
      result := Run(keep);
      if result != Paused {
        ends := ends + [error];
      }
    }
  }

  lemma BangData(doc: string, s: State)
    requires Valid(doc, s) && s.started && s.pos + 1 < |doc| && doc[s.pos] == '<' && doc[s.pos + 1] == '!'
    requires s.tags != [] ==> !Top(s.tags).full
    ensures IsCData(doc, s.pos) ==>
      Bang(doc, s) == if s.tags == [] then Fail(NoParent) else InnerOutcome(s, ReadAfterCData(doc, s.pos, ""))
  {
    hide Next, ReadAfterCData, ReadInner, CommentEnd, SkipSpace;
  }

  lemma BangIs(doc: string, s: State, isInner: bool, buffer: string, spaces: nat)
    requires Valid(doc, s) && s.started && (s.tags != [] ==> !Top(s.tags).full) && spaces <= |buffer|
    requires (isInner ==> s.tags != [])
    requires s.pos + 1 < |doc| && doc[s.pos] == '<' && doc[s.pos + 1] == '!' && (isInner ==> IsCData(doc, s.pos))
    ensures isInner ==> Pending(doc, s, isInner, buffer, spaces) == InnerOutcome(s, ReadAfterCData(doc, s.pos, buffer))
    ensures !isInner ==> Pending(doc, s, isInner, buffer, spaces) == Bang(doc, s)
    ensures !isInner && IsCData(doc, s.pos) ==>
      Bang(doc, s) == if s.tags == [] then Fail(NoParent) else InnerOutcome(s, ReadAfterCData(doc, s.pos, ""))
  {
    hide Next, Bang, ReadInner, ReadAfterCData, IsCData;
    BangData(doc, s);
    NextBang(doc, s);
    if isInner {
      InnerData(doc, s.pos, buffer, spaces);
    }
  }

  lemma NextBang(doc: string, s: State)
    requires Valid(doc, s) && s.started && (s.tags != [] ==> !Top(s.tags).full)
    requires s.pos + 1 < |doc| && doc[s.pos] == '<' && doc[s.pos + 1] == '!'
    ensures Next(doc, s) == Bang(doc, s)
  {
    hide Bang, StartTag, EndTag, ReadInner;
  }

  lemma InnerData(doc: string, p: nat, buffer: string, spaces: nat)
    requires p < |doc| && doc[p] == '<' && IsCData(doc, p) && spaces <= |buffer|
    ensures p + 9 <= |doc| && ReadInner(doc, p, buffer, spaces) == ReadAfterCData(doc, p, buffer)
  {
    hide ReadAfterCData;
  }

  lemma StepIsNext(doc: string, s: State)
    requires Valid(doc, s) && (s.tags != [] ==> !Top(s.tags).full)
    ensures Step(doc, s) == Next(doc, s)
  {
  }

  lemma Moving(doc: string, s: State)
    requires Valid(doc, s) && s.started && s.pos + 1 < |doc| && doc[s.pos] == '<' && doc[s.pos + 1] != '!'
    requires (s.tags != [] ==> !Top(s.tags).full) && Next(doc, s).Emit?
    ensures var o := Next(doc, s);
      o.next.pos > s.pos && !o.event.StartDocument? && !o.event.Inner?
      && (o.event.StartElement? ==> o.next.tags != []) && (o.next.tags != [] ==> Top(o.next.tags).full ==> o.event.StartElement?)
  {
  }

  lemma ResumeFailed(doc: string, s: State, e: Error, keep: nat -> bool, i: nat)
    requires Valid(doc, s)
    ensures Resume(doc, s, Fail(e), keep, i) == Return([], Failed(e), s)
  {
  }

  lemma FailedNow(doc: string, s: State, e: Error, keep: nat -> bool, base: seq<Event>, total: Return, log: seq<Event>)
    requires Valid(doc, s) && Adds(base, total, log, Resume(doc, s, Fail(e), keep, |log|))
    ensures log == base + total.events && total.result == Failed(e)
  {
    hide Valid, Resume, Adds;
    ResumeFailed(doc, s, e, keep, |log|);
    NothingAdded(base, total, log, Failed(e), s);
  }

  lemma NothingAdded(base: seq<Event>, total: Return, log: seq<Event>, result: Result, s: State)
    requires Adds(base, total, log, Return([], result, s))
    ensures log == base + total.events && total.result == result
  {
    assert log + [] == log;
  }

  /** Only after a failure does the state count from which a call began. */
  lemma Moved(doc: string, s: State, s': State, o: Outcome, keep: nat -> bool, base: seq<Event>, total: Return, log: seq<Event>)
    requires Valid(doc, s) && Valid(doc, s') && (o.Emit? ==> Valid(doc, o.next)) && (o.Finish? ==> Valid(doc, o.end))
    requires Adds(base, total, log, Resume(doc, s, o, keep, |log|))
    ensures Adds(base, total, log, Resume(doc, s', o, keep, |log|))
  {
    hide Step, Valid;
  }

  /** What the loop has before it at a '<' once the document has started and the
      text before it is done. */
  lemma MarkupIs(doc: string, s: State, isInner: bool, buffer: string, spaces: nat)
    requires Valid(doc, s) && s.started && (s.tags != [] ==> !Top(s.tags).full) && spaces <= |buffer|
    requires s.pos < |doc| && doc[s.pos] == '<' && (isInner ==> s.tags != [] && IsCData(doc, s.pos))
    ensures s.pos + 1 == |doc| ==> Pending(doc, s, isInner, buffer, spaces) == Fail(NoTagName)
    ensures s.pos + 1 < |doc| && doc[s.pos + 1] != '!' ==> !isInner && Pending(doc, s, isInner, buffer, spaces) == Next(doc, s)
  {
    hide ReadInner, EndTag, StartTag, Bang;
    if isInner {
      assert doc[s.pos..s.pos + 9][1] == '!';
    }
  }
}
