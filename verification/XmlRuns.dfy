/** Whole parses: pausing at any callbacks changes nothing, and the callbacks
    are well bracketed. */
module XmlRuns {
  import opened Options
  import opened Ascii
  import opened Xml

  datatype Result = Done | Paused | Failed(error: Error)

  /** What one call of parse emits, how it ends, and the state it leaves (after a
      failure no state counts). */
  datatype Return = Return(events: seq<Event>, result: Result, next: State)

  /** A handler that asks to stop is not obeyed if nothing is left to parse. */
  function Stop(doc: string, e: Event, s: State): Result
  {
    if (e.EndElement? || e.Infos? || e.StartElement?) && s.pos == |doc| && s.tags == [] then Done else Paused
  }

  function With(e: Event, r: Return): Return
  {
    Return([e] + r.events, r.result, r.next)
  }

  function Weight(doc: string, o: Outcome): nat
    requires o.Emit? ==> Valid(doc, o.next)
  {
    if o.Emit? then Ahead(doc, o.next) + 1 else 0
  }

  /** One call of parse, from its next callback on: handler `i` answers `keep(i)`. */
  function Resume(doc: string, s: State, o: Outcome, keep: nat -> bool, i: nat): (r: Return)
    requires o.Emit? ==> Valid(doc, o.next)
    requires Valid(doc, s) && (o.Finish? ==> Valid(doc, o.end))
    ensures Valid(doc, r.next)
    ensures r.result == Paused ==> r.events != [] && o.Emit? && Ahead(doc, r.next) <= Ahead(doc, o.next)
    decreases Weight(doc, o)
  {
    match o
    case Finish(end) => Return([], Done, end)
    case Fail(error) => Return([], Failed(error), s)
    case Emit(e, s') =>
      if keep(i) then With(e, Resume(doc, s', Step(doc, s'), keep, i + 1)) else Return([e], Stop(doc, e, s'), s')
  }

  function Call(doc: string, s: State, keep: nat -> bool, i: nat): (r: Return)
    requires Valid(doc, s)
    ensures Valid(doc, r.next)
    ensures r.result == Paused ==> Ahead(doc, r.next) < Ahead(doc, s)
  {
    Resume(doc, s, Step(doc, s), keep, i)
  }

  /** Calls of parse until one does not pause: every callback, and how it ended. */
  function Session(doc: string, s: State, keep: nat -> bool, i: nat): (seq<Event>, Result)
    requires Valid(doc, s)
    decreases Ahead(doc, s)
  {
    var r := Call(doc, s, keep, i);
    if r.result == Paused then
      var later := Session(doc, r.next, keep, i + |r.events|);
      (r.events + later.0, later.1)
    else (r.events, r.result)
  }

  /** One uninterrupted parse. */
  function Trace(doc: string, s: State): (seq<Event>, Result)
    requires Valid(doc, s)
    decreases Ahead(doc, s)
  {
    match Step(doc, s)
    case Finish(_) => ([], Done)
    case Fail(error) => ([], Failed(error))
    case Emit(e, s') => ([e] + Trace(doc, s').0, Trace(doc, s').1)
  }

  const FIRST := State(false, 0, [])

  // ----- pausing ------------------------------------------------------------------------

  lemma StoppedAtEnd(doc: string, e: Event, s: State)
    requires Valid(doc, s) && s.started && Stop(doc, e, s) == Done
    ensures Trace(doc, s) == ([], Done)
  {
  }

  lemma EmittedStarted(doc: string, s: State)
    requires Valid(doc, s) && Step(doc, s).Emit?
    ensures Step(doc, s).next.started
  {
    if !(s.tags != [] && Top(s.tags).full) {
      NextStarted(doc, s);
    }
  }

  lemma {:induction false} NextStarted(doc: string, s: State)
    requires Valid(doc, s) && (s.tags != [] ==> !Top(s.tags).full) && Next(doc, s).Emit?
    ensures Next(doc, s).next.started
    decreases |doc| - s.pos
  {
    hide ReadInner, ReadAfterCData, ScanAttributes, ScanName, SkipSpace, CommentEnd, IsCData;
    if s.pos < |doc| && doc[s.pos] != '<' && IsSpace(doc[s.pos]) {
      NextStarted(doc, s.(pos := s.pos + 1));
    } else if s.pos + 1 < |doc| && doc[s.pos] == '<' && doc[s.pos + 1] == '!' && s.started {
      BangStarted(doc, s);
    }
  }

  lemma {:induction false} BangStarted(doc: string, s: State)
    requires Valid(doc, s) && s.started && s.pos + 1 < |doc| && doc[s.pos] == '<' && doc[s.pos + 1] == '!'
    requires (s.tags != [] ==> !Top(s.tags).full) && Bang(doc, s).Emit?
    ensures Bang(doc, s).next.started
    decreases |doc| - s.pos, 0
  {
    hide ReadAfterCData, SkipSpace, CommentEnd, IsCData, Next;
    var p := s.pos + 2;
    if !IsCData(doc, s.pos) {
      NextStarted(doc, s.(pos := SkipSpace(doc, CommentEnd(doc, p + 2, doc[p], doc[p + 1]) + 1)));
    }
  }

  /** What a call leaves for later, together with what it emitted, is the uninterrupted parse. */
  lemma {:induction false} CallIsPrefix(doc: string, s: State, keep: nat -> bool, i: nat)
    requires Valid(doc, s)
    ensures var r := Call(doc, s, keep, i);
      if r.result == Paused then Trace(doc, s) == (r.events + Trace(doc, r.next).0, Trace(doc, r.next).1)
      else Trace(doc, s) == (r.events, r.result)
    decreases Ahead(doc, s)
  {
    hide Step, Ahead, Valid;
    var o := Step(doc, s);
    if o.Emit? {
      EmittedStarted(doc, s);
      if keep(i) {
        CallIsPrefix(doc, o.next, keep, i + 1);
        var r := Call(doc, o.next, keep, i + 1);
        assert [o.event] + (r.events + Trace(doc, r.next).0) == [o.event] + r.events + Trace(doc, r.next).0;
      } else if Stop(doc, o.event, o.next) == Done {
        StoppedAtEnd(doc, o.event, o.next);
        assert [o.event] + [] == [o.event];
      }
    }
  }

  /** Pause transparency: whichever handlers ask to stop, the calls together make the
      same callbacks in the same order, and end the same way, as one that never pauses. */
  lemma {:induction false} PauseTransparent(doc: string, s: State, keep: nat -> bool, i: nat)
    requires Valid(doc, s)
    ensures Session(doc, s, keep, i) == Trace(doc, s)
    decreases Ahead(doc, s)
  {
    hide Step, Ahead, Valid, Call;
    CallIsPrefix(doc, s, keep, i);
    var r := Call(doc, s, keep, i);
    if r.result == Paused {
      PauseTransparent(doc, r.next, keep, i + |r.events|);
    }
  }

  // ----- brackets ---------------------------------------------------------------------------

  /** The open elements after one more callback, unless it closes or names the wrong one. */
  function Replay1(open: seq<string>, e: Event): Option<seq<string>>
  {
    match e
    case StartElement(name, _) => Some(open + [name])
    case EndElement(name) => if open != [] && open[|open| - 1] == name then Some(open[..|open| - 1]) else None
    case Inner(name, _) => if open != [] && open[|open| - 1] == name then Some(open) else None
    case _ => Some(open)
  }

  function Replay(open: seq<string>, events: seq<Event>): Option<seq<string>>
    decreases |events|
  {
    if events == [] then Some(open)
    else if Replay1(open, events[0]).None? then None
    else Replay(Replay1(open, events[0]).value, events[1..])
  }

  function Names(tags: seq<Tag>): (names: seq<string>)
    ensures |names| == |tags|
  {
    seq(|tags|, i requires 0 <= i < |tags| => tags[i].name)
  }

  lemma NamesEnds(tags: seq<Tag>, tag: Tag)
    ensures Names(tags + [tag]) == Names(tags) + [tag.name]
    ensures tags != [] ==> Names(Pop(tags)) == Names(tags)[..|tags| - 1]
  {
  }

  predicate Bracketed(s: State, o: Outcome)
  {
    o.Emit? ==> Replay1(Names(s.tags), o.event) == Some(Names(o.next.tags))
  }

  lemma StepBracketed(doc: string, s: State)
    requires Valid(doc, s)
    ensures Bracketed(s, Step(doc, s))
  {
    hide Next, Names;
    if s.tags != [] && Top(s.tags).full {
      NamesEnds(s.tags, Top(s.tags));
      NameOfTop(s.tags);
    } else {
      NextBracketed(doc, s);
    }
  }

  lemma NameOfTop(tags: seq<Tag>)
    requires tags != []
    ensures Names(tags)[|tags| - 1] == Top(tags).name
  {
  }

  lemma {:induction false} NextBracketed(doc: string, s: State)
    requires Valid(doc, s) && (s.tags != [] ==> !Top(s.tags).full)
    ensures Bracketed(s, Next(doc, s))
    decreases |doc| - s.pos
  {
    hide ReadInner, SkipSpace, EndTag, StartTag, Bang, Names;
    if s.pos < |doc| && doc[s.pos] != '<' && IsSpace(doc[s.pos]) {
      NextBracketed(doc, s.(pos := s.pos + 1));
    } else if s.pos + 1 < |doc| && doc[s.pos] == '<' && s.started {
      TagsBracketed(doc, s);
      if doc[s.pos + 1] == '!' {
        BangBracketed(doc, s);
      }
    } else if s.tags != [] {
      NameOfTop(s.tags);
    }
  }

  lemma TagsBracketed(doc: string, s: State)
    requires Valid(doc, s) && s.started && s.pos + 1 < |doc|
    requires s.tags != [] ==> !Top(s.tags).full
    ensures Bracketed(s, EndTag(doc, s)) && Bracketed(s, StartTag(doc, s))
  {
    hide ScanAttributes, ScanName, SkipSpace, Names;
    if s.tags != [] {
      NamesEnds(s.tags, Top(s.tags));
      NameOfTop(s.tags);
    }
    if StartTag(doc, s).Emit? && StartTag(doc, s).event.StartElement? {
      NamesEnds(s.tags, Top(StartTag(doc, s).next.tags));
    }
  }

  lemma {:induction false} BangBracketed(doc: string, s: State)
    requires Valid(doc, s) && s.started && s.pos + 1 < |doc| && doc[s.pos] == '<' && doc[s.pos + 1] == '!'
    requires s.tags != [] ==> !Top(s.tags).full
    ensures Bracketed(s, Bang(doc, s))
    decreases |doc| - s.pos, 0
  {
    hide ReadAfterCData, SkipSpace, CommentEnd, IsCData, Next, Names;
    var p := s.pos + 2;
    if p < |doc| {
      if IsCData(doc, s.pos) {
        if s.tags != [] {
          NameOfTop(s.tags);
        }
      } else if p + 1 < |doc| {
        var close := CommentEnd(doc, p + 2, doc[p], doc[p + 1]);
        if close < |doc| {
          NextBracketed(doc, s.(pos := SkipSpace(doc, close + 1)));
        }
      }
    }
  }

  /** Whichever callback a call stops at, the elements begun and not ended by then are
      exactly the open tags it leaves; and so where it fails or is done. */
  lemma {:induction false} CallBracketed(doc: string, s: State, keep: nat -> bool, i: nat)
    requires Valid(doc, s)
    ensures var r := Call(doc, s, keep, i);
      Replay(Names(s.tags), r.events) == Some(Names(r.next.tags))
    decreases Ahead(doc, s)
  {
    hide Step, Ahead, Valid, Names;
    StepBracketed(doc, s);
    var o := Step(doc, s);
    if o.Emit? {
      if keep(i) {
        CallBracketed(doc, o.next, keep, i + 1);
      } else {
        assert Replay(Names(o.next.tags), []) == Some(Names(o.next.tags));
        assert [o.event][1..] == [];
      }
    } else if o.Finish? {
      FinishClosed(doc, s);
    }
  }

  /** No callback of a parse closes or names a wrong element, and a parse that is done
      has ended every element it began. */
  lemma {:induction false} TraceBracketed(doc: string, s: State)
    requires Valid(doc, s)
    ensures Replay(Names(s.tags), Trace(doc, s).0).Some?
    ensures Trace(doc, s).1 == Done ==> Replay(Names(s.tags), Trace(doc, s).0) == Some([])
    decreases Ahead(doc, s)
  {
    hide Step, Ahead, Valid, Names;
    StepBracketed(doc, s);
    var o := Step(doc, s);
    if o.Emit? {
      TraceBracketed(doc, o.next);
    } else if o.Finish? {
      FinishClosed(doc, s);
    }
  }

  lemma FinishClosed(doc: string, s: State)
    requires Valid(doc, s) && Step(doc, s).Finish?
    ensures Names(s.tags) == [] == Names(Step(doc, s).end.tags)
  {
    if !(s.tags != [] && Top(s.tags).full) {
      NextClosed(doc, s);
    }
  }

  lemma {:induction false} NextClosed(doc: string, s: State)
    requires Valid(doc, s) && (s.tags != [] ==> !Top(s.tags).full)
    ensures Next(doc, s).Finish? ==> Next(doc, s).end.tags == s.tags == []
    decreases |doc| - s.pos
  {
    hide ReadInner, SkipSpace, EndTag, StartTag, Bang;
    if s.pos < |doc| && doc[s.pos] != '<' && IsSpace(doc[s.pos]) {
      NextClosed(doc, s.(pos := s.pos + 1));
    } else if s.pos + 1 < |doc| && doc[s.pos] == '<' && s.started && doc[s.pos + 1] == '!' {
      BangClosed(doc, s);
    }
    assert s.pos + 1 < |doc| && doc[s.pos] == '<' && s.started ==> !StartTag(doc, s).Finish? && !EndTag(doc, s).Finish? by {
      if s.pos + 1 < |doc| && doc[s.pos] == '<' && s.started {
        TagsEmit(doc, s);
      }
    }
  }

  lemma TagsEmit(doc: string, s: State)
    requires Valid(doc, s) && s.started && s.pos + 1 < |doc|
    requires s.tags != [] ==> !Top(s.tags).full
    ensures !StartTag(doc, s).Finish? && !EndTag(doc, s).Finish?
  {
  }

  lemma {:induction false} BangClosed(doc: string, s: State)
    requires Valid(doc, s) && s.started && s.pos + 1 < |doc| && doc[s.pos] == '<' && doc[s.pos + 1] == '!'
    requires s.tags != [] ==> !Top(s.tags).full
    ensures Bang(doc, s).Finish? ==> Bang(doc, s).end.tags == s.tags == []
    decreases |doc| - s.pos, 0
  {
    hide ReadAfterCData, SkipSpace, CommentEnd, IsCData, Next;
    var p := s.pos + 2;
    if p + 1 < |doc| && !IsCData(doc, s.pos) {
      var close := CommentEnd(doc, p + 2, doc[p], doc[p + 1]);
      if close < |doc| {
        NextClosed(doc, s.(pos := SkipSpace(doc, close + 1)));
      }
    }
  }

  // ----- the start of the document ------------------------------------------------------------

  lemma {:induction false} NextNoStart(doc: string, s: State)
    requires Valid(doc, s) && s.started && (s.tags != [] ==> !Top(s.tags).full)
    ensures Next(doc, s).Emit? ==> !Next(doc, s).event.StartDocument?
    decreases |doc| - s.pos
  {
    hide ReadInner, ReadAfterCData, ScanAttributes, ScanName, SkipSpace, CommentEnd, IsCData;
    if s.pos < |doc| && doc[s.pos] != '<' && IsSpace(doc[s.pos]) {
      NextNoStart(doc, s.(pos := s.pos + 1));
    } else if s.pos + 2 < |doc| && doc[s.pos] == '<' && doc[s.pos + 1] == '!' && !IsCData(doc, s.pos) && s.pos + 3 < |doc| {
      var close := CommentEnd(doc, s.pos + 4, doc[s.pos + 2], doc[s.pos + 3]);
      if close < |doc| {
        NextNoStart(doc, s.(pos := SkipSpace(doc, close + 1)));
      }
    }
  }

  lemma {:induction false} NoSecondStart(doc: string, s: State)
    requires Valid(doc, s) && s.started
    ensures StartDocument !in Trace(doc, s).0
    decreases Ahead(doc, s)
  {
    hide Next, Ahead, Valid;
    if !(s.tags != [] && Top(s.tags).full) {
      NextNoStart(doc, s);
    }
    if Step(doc, s).Emit? {
      EmittedStarted(doc, s);
      NoSecondStart(doc, Step(doc, s).next);
    }
  }

  /** The document starts once, before anything else. */
  lemma StartsOnce(doc: string)
    ensures var events := Trace(doc, FIRST).0;
      events != [] ==> events[0] == StartDocument && StartDocument !in events[1..]
  {
    hide Next, Ahead;
    FirstIsStart(doc, FIRST);
    if Step(doc, FIRST).Emit? {
      EmittedStarted(doc, FIRST);
      NoSecondStart(doc, Step(doc, FIRST).next);
    }
  }

  lemma {:induction false} FirstIsStart(doc: string, s: State)
    requires Valid(doc, s) && !s.started
    ensures Step(doc, s) == Next(doc, s)
    ensures Next(doc, s).Emit? ==> Next(doc, s).event == StartDocument
    decreases |doc| - s.pos
  {
    hide ReadInner, EndTag, StartTag, Bang;
    if s.pos < |doc| && doc[s.pos] != '<' && IsSpace(doc[s.pos]) {
      FirstIsStart(doc, s.(pos := s.pos + 1));
    }
  }
}
