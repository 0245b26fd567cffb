/** Subscription::Medias: medias kept back while a subscription passes from one
    publication to the next. The current publication's come first, the next one's last. */
module Medias {
  import opened Options
  import opened Bytes

  /** `reset` marks the end of a publication; a media without time is data or
      configuration, whatever its tag says. */
  datatype Media = Media(timed: bool, time: UInt32, reset: bool, content: nat)

  /** Both parts; whether both publications share a clock, whether the switch is
      still awaited, and whether a flush is under way. */
  datatype State = State(current: seq<Media>, next: seq<Media>, aligning: bool, waiting: bool, flushing: bool)

  // ----- flushing ---------------------------------------------------------------------

  /** Up to when to play: the next part's first time, or the next publication's own. */
  function Limit(s: State, publication: Option<UInt32>): Option<UInt32>
  {
    if !s.aligning then None
    else if s.next == [] then publication
    else Some(s.next[0].time)
  }

  predicate Reached(m: Media, limit: Option<UInt32>)
  {
    limit.Some? && m.timed && Distance(m.time, limit.value) <= 0
  }

  /** How many medias come before the first that reaches the limit. */
  function ReadyCount(c: seq<Media>, limit: Option<UInt32>): (k: nat)
    ensures k <= |c|
  {
    if c == [] || Reached(c[0], limit) then 0 else 1 + ReadyCount(c[1..], limit)
  }

  lemma {:induction false} ReadyIs(c: seq<Media>, limit: Option<UInt32>)
    ensures forall i :: 0 <= i < ReadyCount(c, limit) ==> !Reached(c[i], limit)
    ensures ReadyCount(c, limit) < |c| ==> Reached(c[ReadyCount(c, limit)], limit)
  {
    hide Reached;
    if c != [] && !Reached(c[0], limit) {
      ReadyIs(c[1..], limit);
    }
  }

  /** The next part has begun, and the current one is played up to it. */
  predicate Joined(s: State, publication: Option<UInt32>)
  {
    var limit := Limit(s, publication);
    s.next != [] && (limit.None? || ReadyCount(s.current, limit) < |s.current|)
  }

  function Flushed(s: State, publication: Option<UInt32>): (State, seq<Media>)
  {
    if s.flushing then (s, [])
    else
      var k := ReadyCount(s.current, Limit(s, publication));
      (if Joined(s, publication) then s.(current := [], waiting := false) else s.(current := s.current[k..]), s.current[..k])
  }

  lemma FlushedCases(s: State, publication: Option<UInt32>)
    ensures s.flushing ==> Flushed(s, publication) == (s, [])
    ensures !s.flushing ==>
      var limit := Limit(s, publication);
      var k := ReadyCount(s.current, limit);
      Flushed(s, publication)
      == (if s.next != [] && (limit.None? || k < |s.current|) then s.(current := [], waiting := false)
          else s.(current := s.current[k..]), s.current[..k])
  {
    hide Limit, ReadyCount;
  }

  // ----- the operations ------------------------------------------------------------------

  /** A media of the next publication goes behind those not later than it. */
  function Insert(next: seq<Media>, m: Media): (r: seq<Media>)
    ensures |r| == |next| + 1
    decreases |next|
  {
    if next == [] || !m.timed || Distance(next[|next| - 1].time, m.time) >= 0 then next + [m]
    else Insert(next[..|next| - 1], m) + [next[|next| - 1]]
  }

  /** How long a front of medias without a time at or after `until`. */
  function Before(c: seq<Media>, until: UInt32): (k: nat)
    ensures k <= |c|
  {
    if c == [] || (c[0].timed && Distance(c[0].time, until) <= 0) then 0 else 1 + Before(c[1..], until)
  }

  datatype Op =
    | Add(m: Media, publication: Option<UInt32>)
    | WriteNext(m: Media, publication: Option<UInt32>)
    | Clear
    | ClearUntil(time: UInt32)
    | FlushNow(publication: Option<UInt32>)
    | SetNext(had: bool, done: bool, aligned: Option<bool>)

  /** Whether a media of the current publication is kept back; if not it is played
      at once, unless the switch is done and it comes too late. */
  predicate Kept(s: State, m: Media)
  {
    !s.flushing && !(s.next != [] && !s.waiting) && (m.timed || s.current != [])
  }

  predicate Late(s: State)
  {
    !s.flushing && s.next != [] && !s.waiting
  }

  /** The state and what is played. */
  function Step(s: State, op: Op): (State, seq<Media>)
  {
    match op
    case Add(m, publication) =>
      if Late(s) then (s, [])
      else if !Kept(s, m) then (s, [m])
      else
        var s1 := s.(current := s.current + [m]);
        if s.waiting then Flushed(s1, publication) else (s1, [])
    case WriteNext(m, publication) =>
      // nothing without a time comes first
      if !m.timed && s.next == [] then (s, [])
      else Flushed(s.(next := Insert(s.next, m), waiting := s.waiting || s.next == []), publication)
    case Clear => (if s.flushing then s else s.(current := []), [])
    case ClearUntil(time) => (if s.flushing then s else s.(current := s.current[Before(s.current, time)..]), [])
    case FlushNow(publication) => Flushed(s, publication)
    case SetNext(had, done, aligned) =>
      var s1 :=
        if !had then s
        else if !done then s.(next := [], waiting := false)
        else s.(current := (if s.flushing then s.current else []) + s.next, next := [], waiting := false);
      (s1.(aligning := aligned == Some(true), waiting := aligned.Some? || s1.waiting), [])
  }

  function Run(s: State, ops: seq<Op>): (State, seq<Media>)
    decreases |ops|
  {
    if ops == [] then (s, [])
    else
      var first := Step(s, ops[0]);
      (Run(first.0, ops[1..]).0, first.1 + Run(first.0, ops[1..]).1)
  }

  // ----- first in, first out -----------------------------------------------------------------

  /** `a` is `b` with some elements left out. */
  predicate Within(a: seq<Media>, b: seq<Media>)
    decreases |b|
  {
    a == [] || (b != [] && (if a[0] == b[0] then Within(a[1..], b[1..]) else Within(a, b[1..])))
  }

  lemma {:induction false} WithinSame(a: seq<Media>)
    ensures Within(a, a)
  {
    if a != [] {
      WithinSame(a[1..]);
    }
  }

  /** Leaving out the first element of `b` never helps. */
  lemma {:induction false} WithinTail(a: seq<Media>, b: seq<Media>)
    requires a != [] && Within(a, b)
    ensures Within(a[1..], b)
    decreases |b|, 1
  {
    if a[0] == b[0] {
      WithinLater(a[1..], b);
    } else {
      WithinTail(a, b[1..]);
      WithinLater(a[1..], b);
    }
  }

  lemma {:induction false} WithinLater(a: seq<Media>, b: seq<Media>)
    requires b != [] && Within(a, b[1..])
    ensures Within(a, b)
    decreases |b|, 0
  {
    if a != [] && a[0] == b[0] {
      WithinTail(a, b[1..]);
    }
  }

  lemma {:induction false} WithinAppend(a: seq<Media>, b: seq<Media>, c: seq<Media>, d: seq<Media>)
    requires Within(a, b) && Within(c, d)
    ensures Within(a + c, b + d)
    decreases |b|
  {
    if a == [] {
      assert a + c == c;
      WithinBehind(c, b, d);
    } else {
      assert (a + c)[1..] == a[1..] + c && (b + d)[1..] == b[1..] + d;
      if a[0] == b[0] {
        WithinAppend(a[1..], b[1..], c, d);
      } else {
        WithinAppend(a, b[1..], c, d);
      }
    }
  }

  lemma {:induction false} WithinBehind(c: seq<Media>, b: seq<Media>, d: seq<Media>)
    requires Within(c, d)
    ensures Within(c, b + d)
    decreases |b|
  {
    if b == [] {
      assert b + d == d;
    } else {
      assert (b + d)[1..] == b[1..] + d;
      WithinBehind(c, b[1..], d);
      WithinLater(c, b + d);
    }
  }

  /** The medias that come into the current part: those added and not late, and the
      next part's when the switch is done. */
  function Entering(s: State, op: Op): seq<Media>
  {
    match op
    case Add(m, _) => if Late(s) then [] else [m]
    case SetNext(had, done, _) => if had && done then s.next else []
    case _ => []
  }

  function EnteringAll(s: State, ops: seq<Op>): seq<Media>
    decreases |ops|
  {
    if ops == [] then [] else Entering(s, ops[0]) + EnteringAll(Step(s, ops[0]).0, ops[1..])
  }

  /** What leaves the current part unplayed in one operation. */
  function Dropped(s: State, op: Op): seq<Media>
  {
    match op
    case Add(m, publication) =>
      if Kept(s, m) && s.waiting then FlushDrops(s.(current := s.current + [m]), publication) else []
    case WriteNext(m, publication) =>
      if !m.timed && s.next == [] then []
      else FlushDrops(s.(next := Insert(s.next, m), waiting := s.waiting || s.next == []), publication)
    case Clear => s.current
    case ClearUntil(time) => s.current[..Before(s.current, time)]
    case FlushNow(publication) => FlushDrops(s, publication)
    case SetNext(had, done, _) => if had && done then s.current else []
  }

  function FlushDrops(s: State, publication: Option<UInt32>): seq<Media>
  {
    if Joined(s, publication) then s.current[ReadyCount(s.current, Limit(s, publication))..] else []
  }

  lemma FlushLeaves(s: State, publication: Option<UInt32>)
    requires !s.flushing
    ensures var r := Flushed(s, publication);
      r.1 + FlushDrops(s, publication) + r.0.current == s.current && !r.0.flushing
  {
    hide ReadyCount, Limit;
    var k := ReadyCount(s.current, Limit(s, publication));
    assert s.current[..k] + s.current[k..] == s.current;
  }

  /** One operation: what was there and what enters is played, dropped or still there,
      in that order. */
  lemma StepLeaves(s: State, op: Op)
    requires !s.flushing
    ensures Step(s, op).1 + Dropped(s, op) + Step(s, op).0.current == s.current + Entering(s, op)
    ensures !Step(s, op).0.flushing
  {
    hide Flushed, FlushDrops, Insert;
    match op
    case Add(m, publication) =>
      FlushLeaves(s.(current := s.current + [m]), publication);
    case WriteNext(m, publication) =>
      FlushLeaves(s.(next := Insert(s.next, m), waiting := s.waiting || s.next == []), publication);
    case FlushNow(publication) =>
      FlushLeaves(s, publication);
    case Clear =>
    case ClearUntil(time) =>
    case SetNext(had, done, aligned) =>
  }

  lemma FlushKeeps(s: State, publication: Option<UInt32>)
    ensures Flushed(s, publication).0.flushing == s.flushing && Flushed(s, publication).0.next == s.next
  {
  }

  /** A media that left the current part. */
  datatype Left = Left(m: Media, played: bool)

  function Leaving(c: seq<Media>, played: bool): (r: seq<Left>)
    ensures |r| == |c|
  {
    if c == [] then [] else [Left(c[0], played)] + Leaving(c[1..], played)
  }

  /** All that leave it in a run, in the order in which they do. */
  function LeavingAll(s: State, ops: seq<Op>): seq<Left>
    decreases |ops|
  {
    if ops == [] then []
    else
      var first := Step(s, ops[0]);
      Leaving(first.1, true) + Leaving(Dropped(s, ops[0]), false) + LeavingAll(first.0, ops[1..])
  }

  function All(left: seq<Left>): (r: seq<Media>)
    ensures |r| == |left|
  {
    if left == [] then [] else [left[0].m] + All(left[1..])
  }

  function Played(left: seq<Left>): (r: seq<Media>)
    ensures |r| <= |left|
    ensures |r| == |left| <==> forall i :: 0 <= i < |left| ==> left[i].played
  {
    if left == [] then [] else Heard(left[0]) + Played(left[1..])
  }

  /** What the first alone adds to what is played. */
  function Heard(x: Left): seq<Media>
  {
    if x.played then [x.m] else []
  }

  lemma LeftCons(x: Left, later: seq<Left>)
    ensures All([x] + later) == [x.m] + All(later) && Played([x] + later) == Heard(x) + Played(later)
  {
    assert ([x] + later)[1..] == later;
  }

  lemma {:induction false} LeftAppend(a: seq<Left>, b: seq<Left>)
    ensures All(a + b) == All(a) + All(b) && Played(a + b) == Played(a) + Played(b)
  {
    hide All, Played, Heard;
    if a == [] {
      NoneLeft();
      assert a + b == b && [] + All(b) == All(b) && [] + Played(b) == Played(b);
    } else {
      var x, later := a[0], a[1..];
      assert a == [x] + later && a + b == [x] + (later + b);
      LeftAppend(later, b);
      LeftCons(x, later);
      LeftCons(x, later + b);
      assert [x.m] + (All(later) + All(b)) == [x.m] + All(later) + All(b);
      assert Heard(x) + (Played(later) + Played(b)) == Heard(x) + Played(later) + Played(b);
    }
  }

  lemma {:induction false} LeavingIs(c: seq<Media>, played: bool)
    ensures All(Leaving(c, played)) == c && Played(Leaving(c, played)) == if played then c else []
  {
    if c != [] {
      LeavingIs(c[1..], played);
      assert Leaving(c, played)[1..] == Leaving(c[1..], played);
    }
  }

  /** Whether nothing is ever dropped: no clearing meets medias, no finished switch
      and no join finds any left. */
  predicate Spares(s: State, ops: seq<Op>)
    decreases |ops|
  {
    ops == [] || (Dropped(s, ops[0]) == [] && Spares(Step(s, ops[0]).0, ops[1..]))
  }

  /** In every run, what was there and all that entered has left, in that order, or is
      still there; and what is played is what left without being dropped. */
  lemma {:induction false} Conserved(s: State, ops: seq<Op>)
    requires !s.flushing
    ensures All(LeavingAll(s, ops)) + Run(s, ops).0.current == s.current + EnteringAll(s, ops)
    ensures Played(LeavingAll(s, ops)) == Run(s, ops).1
    ensures |Run(s, ops).1| == |LeavingAll(s, ops)| <==> Spares(s, ops)
    decreases |ops|
  {
    hide Step, Dropped, Entering, Leaving, All, Played;
    if ops == [] {
      NoneLeft();
      assert [] + s.current == s.current == s.current + [];
    } else {
      var first, drops := Step(s, ops[0]), Dropped(s, ops[0]);
      var a, b, later := Leaving(first.1, true), Leaving(drops, false), LeavingAll(first.0, ops[1..]);
      StepLeaves(s, ops[0]);
      Conserved(first.0, ops[1..]);
      LeavingIs(first.1, true);
      LeavingIs(drops, false);
      LeftAppend(a, b);
      LeftAppend(a + b, later);
      Regroup(first.1 + drops, All(later), Run(first.0, ops[1..]).0.current, first.0.current,
              EnteringAll(first.0, ops[1..]), s.current, Entering(s, ops[0]));
      assert first.1 + [] == first.1;
    }
  }

  lemma NoneLeft()
    ensures All([]) == [] && Played([]) == []
  {
  }

  lemma Regroup(a: seq<Media>, b: seq<Media>, c: seq<Media>, d: seq<Media>, e: seq<Media>, f: seq<Media>, g: seq<Media>)
    requires a + d == f + g && b + c == d + e
    ensures a + b + c == f + (g + e)
  {
    assert a + b + c == a + (b + c);
    assert a + (d + e) == (a + d) + e;
    assert (f + g) + e == f + (g + e);
  }

  /** Everything that was there or entered is played or still there, in its order, if
      and only if nothing was dropped. */
  lemma AllPlayedExactly(s: State, ops: seq<Op>)
    requires !s.flushing
    ensures Run(s, ops).1 + Run(s, ops).0.current == s.current + EnteringAll(s, ops) <==> Spares(s, ops)
  {
    hide Run, LeavingAll, EnteringAll, Spares;
    Conserved(s, ops);
    var left := LeavingAll(s, ops);
    assert |All(left) + Run(s, ops).0.current| == |left| + |Run(s, ops).0.current|;
    assert |Run(s, ops).1 + Run(s, ops).0.current| == |Run(s, ops).1| + |Run(s, ops).0.current|;
    AllArePlayed(left);
  }

  lemma {:induction false} AllArePlayed(left: seq<Left>)
    ensures |Played(left)| == |left| ==> Played(left) == All(left)
    ensures Within(Played(left), All(left))
  {
    hide Within, Played, All;
    if left == [] {
      NoneLeft();
      WithinSame([]);
    } else {
      AllArePlayed(left[1..]);
      assert left == [left[0]] + left[1..];
      LeftCons(left[0], left[1..]);
      NoneWithin([left[0].m]);
      WithinSame([left[0].m]);
      WithinAppend(Heard(left[0]), [left[0].m], Played(left[1..]), All(left[1..]));
    }
  }

  lemma NoneWithin(c: seq<Media>)
    ensures Within([], c)
  {
  }

  /** In every run, what is played and then what is still kept come in the order in
      which they entered the current part; nothing else is ever played. */
  lemma FirstInFirstOut(s: State, ops: seq<Op>)
    requires !s.flushing
    ensures Within(Run(s, ops).1 + Run(s, ops).0.current, s.current + EnteringAll(s, ops))
  {
    hide Run, LeavingAll, EnteringAll, Within;
    Conserved(s, ops);
    AllArePlayed(LeavingAll(s, ops));
    WithinSame(Run(s, ops).0.current);
    WithinAppend(Run(s, ops).1, All(LeavingAll(s, ops)), Run(s, ops).0.current, Run(s, ops).0.current);
  }

  /** Up to when a flush plays, when there is an end to it. */
  predicate Waiting(s: State, publication: Option<UInt32>)
  {
    s.aligning && (s.next != [] || publication.Some?)
  }

  /** What a flush does, with the clocks aligned: it plays up to the first timed media at
      or after the first of the next publication, or the present time of one that has none
      yet; and the next part joins when such a media is met, which is dropped with all
      behind it. Without alignment everything is played, and the next part joins at once. */
  lemma FlushExactly(s: State, publication: Option<UInt32>)
    requires !s.flushing
    ensures var limit: UInt32 := if s.next != [] then s.next[0].time else if publication.Some? then publication.value else 0;
      var (s1, played) := Flushed(s, publication);
      && played <= s.current
      && (forall i :: 0 <= i < |played| && played[i].timed && Waiting(s, publication) ==> Distance(played[i].time, limit) > 0)
      && (|played| < |s.current| ==>
          Waiting(s, publication) && s.current[|played|].timed && Distance(s.current[|played|].time, limit) <= 0)
      && var joins := s.next != [] && (!s.aligning || |played| < |s.current|);
         s1 == if joins then s.(current := [], waiting := false) else s.(current := s.current[|played|..])
  {
    hide Distance;
    ReadyIs(s.current, Limit(s, publication));
  }

  /** Nothing of the current publication gets in any more. */
  predicate IsJoined(s: State)
  {
    !s.flushing && s.next != [] && !s.waiting && s.current == []
  }

  /** Once the next part has joined, nothing is played, whatever comes, until the next
      publication is set anew or done. */
  lemma {:induction false} AfterJoin(s: State, ops: seq<Op>)
    requires IsJoined(s) && forall i :: 0 <= i < |ops| ==> !ops[i].SetNext?
    ensures IsJoined(Run(s, ops).0) && Run(s, ops).1 == []
    decreases |ops|
  {
    hide Step;
    if ops != [] {
      JoinedStep(s, ops[0]);
      AfterJoin(Step(s, ops[0]).0, ops[1..]);
    }
  }

  lemma JoinedStep(s: State, op: Op)
    requires IsJoined(s) && !op.SetNext?
    ensures IsJoined(Step(s, op).0) && Step(s, op).1 == []
  {
    hide Insert, Limit;
  }

  function Adds(ms: seq<Media>): seq<Op>
  {
    seq(|ms|, i requires 0 <= i < |ms| => Op.Add(ms[i], None))
  }

  /** When the switch is done and no other follows, the next part is the current one, and
      medias added are kept behind it until it is played. */
  lemma AfterSwitch(s: State, ms: seq<Media>)
    requires !s.flushing && forall i :: 0 <= i < |ms| ==> ms[i].timed
    ensures var r := Run(Step(s, SetNext(true, true, None)).0, Adds(ms));
      r == (State(s.next + ms, [], false, false, false), [])
  {
    hide Run;
    assert [] + s.next == s.next;
    KeptAll(State(s.next, [], false, false, false), ms);
  }

  lemma AddKept(s: State, m: Media)
    requires s == State(s.current, [], false, false, false) && m.timed
    ensures Step(s, Op.Add(m, None)) == (s.(current := s.current + [m]), [])
  {
  }

  lemma RunOne(s: State, ops: seq<Op>)
    requires ops != []
    ensures var first := Step(s, ops[0]);
      Run(s, ops) == (Run(first.0, ops[1..]).0, first.1 + Run(first.0, ops[1..]).1)
  {
    hide Step;
  }

  lemma {:induction false} KeptAll(s: State, ms: seq<Media>)
    requires s == State(s.current, [], false, false, false) && forall i :: 0 <= i < |ms| ==> ms[i].timed
    ensures Run(s, Adds(ms)) == (s.(current := s.current + ms), [])
    decreases |ms|
  {
    hide Step;
    if ms == [] {
      assert s.current + ms == s.current;
    } else {
      assert Adds(ms)[0] == Op.Add(ms[0], None) && Adds(ms)[1..] == Adds(ms[1..]);
      AddKept(s, ms[0]);
      var s1 := s.(current := s.current + [ms[0]]);
      KeptAll(s1, ms[1..]);
      RunOne(s, Adds(ms));
      assert [] + Run(s1, Adds(ms[1..])).1 == [];
      assert s.current + [ms[0]] + ms[1..] == s.current + ms;
    }
  }

  /** A switch called off leaves what is current as it was. */
  lemma SwitchCalledOff(s: State)
    ensures Step(s, SetNext(true, false, None)) == (State(s.current, [], false, false, s.flushing), [])
    ensures Step(s, SetNext(false, false, None)) == (s.(aligning := false), [])
  {
  }

  /** Clearing up to a time drops medias from the front only: none dropped is timed at or
      after it, and the first one kept is. */
  lemma {:induction false} ClearUntilDrops(c: seq<Media>, until: UInt32)
    ensures forall i :: 0 <= i < Before(c, until) ==> !Reached(c[i], Some(until))
    ensures Before(c, until) < |c| ==> Reached(c[Before(c, until)], Some(until))
  {
    hide Distance;
    if c != [] && !Reached(c[0], Some(until)) {
      ClearUntilDrops(c[1..], until);
    }
  }

  // ----- the next part stays sorted ----------------------------------------------------------------

  /** How far a time lies behind `base`, on the 32-bit clock. */
  function Offset(base: UInt32, time: UInt32): nat
  {
    (time - base) % U32
  }

  predicate HalfCircle(s: seq<Media>, base: UInt32)
  {
    forall i :: 0 <= i < |s| ==> s[i].timed && Offset(base, s[i].time) < 0x8000_0000
  }

  predicate Sorted(s: seq<Media>, base: UInt32)
  {
    forall i, j :: 0 <= i < j < |s| ==> Offset(base, s[i].time) <= Offset(base, s[j].time)
  }

  /** Within half the circle the signed distance is the difference. */
  lemma DistanceIsOrder(base: UInt32, a: UInt32, b: UInt32)
    requires Offset(base, a) < 0x8000_0000 && Offset(base, b) < 0x8000_0000
    ensures Distance(a, b) == Offset(base, b) - Offset(base, a)
  {
    var d := Offset(base, b) - Offset(base, a);
    assert (b - a) % U32 == d % U32 by {
      var p, q := (b - base) / U32, (a - base) / U32;
      assert b - a == d + (p - q) * U32;
      WholeTurns(d, p - q);
    }
    if d < 0 {
      WholeTurns(d, 1);
    }
  }

  /** The medias of one time, in order. */
  function AtTime(s: seq<Media>, t: UInt32): seq<Media>
  {
    if s == [] then [] else AtTime(s[..|s| - 1], t) + if s[|s| - 1].time == t then [s[|s| - 1]] else []
  }

  lemma AtTimeMore(s: seq<Media>, m: Media, t: UInt32)
    ensures AtTime(s + [m], t) == AtTime(s, t) + if m.time == t then [m] else []
  {
    assert (s + [m])[..|s|] == s;
  }

  /** Sorted insertion: in its place by cyclic time, behind all of its own time. */
  lemma {:induction false} InsertSorted(next: seq<Media>, m: Media, base: UInt32)
    requires HalfCircle(next + [m], base) && Sorted(next, base)
    ensures Sorted(Insert(next, m), base) && HalfCircle(Insert(next, m), base)
    ensures multiset(Insert(next, m)) == multiset(next) + multiset{m}
    ensures forall t :: AtTime(Insert(next, m), t) == AtTime(next, t) + if m.time == t then [m] else []
    ensures next == [] ==> Insert(next, m) == [m]
    ensures next != [] ==> Insert(next, m)[|next|] in {m, next[|next| - 1]}
    decreases |next|
  {
    hide Sorted, HalfCircle, AtTime, Distance, Offset;
    var last := next == [];
    if next != [] {
      last := Place(next, m, base);
    }
    if last {
      assert Insert(next, m) == next + [m];
      SortedBehind(next, m, base);
      forall t ensures AtTime(next + [m], t) == AtTime(next, t) + if m.time == t then [m] else [] {
        AtTimeMore(next, m, t);
      }
    } else {
      var init, end := next[..|next| - 1], next[|next| - 1];
      assert next == init + [end];
      InitHolds(init, end, m, base);
      InsertSorted(init, m, base);
      var r := Insert(init, m);
      assert Insert(next, m) == r + [end];
      SortedBehind2(init, r, end, m, base);
      forall t ensures AtTime(r + [end], t) == AtTime(next, t) + if m.time == t then [m] else [] {
        AtTimeMore(r, end, t);
        AtTimeMore(init, end, t);
        assert m.time != end.time;
        TimesApart(AtTime(init, t), end, m, t);
      }
    }
  }

  lemma TimesApart(a: seq<Media>, x: Media, y: Media, t: UInt32)
    requires x.time != y.time
    ensures a + (if y.time == t then [y] else []) + (if x.time == t then [x] else [])
      == a + (if x.time == t then [x] else []) + (if y.time == t then [y] else [])
  {
  }

  /** Whether the media goes last. */
  lemma Place(next: seq<Media>, m: Media, base: UInt32) returns (last: bool)
    requires next != [] && HalfCircle(next + [m], base)
    ensures last <==> Offset(base, next[|next| - 1].time) <= Offset(base, m.time)
    ensures last <==> !m.timed || Distance(next[|next| - 1].time, m.time) >= 0
  {
    hide Distance, Offset;
    var all := next + [m];
    assert all[|next| - 1] == next[|next| - 1] && all[|next|] == m;
    DistanceIsOrder(base, next[|next| - 1].time, m.time);
    last := Offset(base, next[|next| - 1].time) <= Offset(base, m.time);
  }

  lemma SortedBehind(next: seq<Media>, m: Media, base: UInt32)
    requires HalfCircle(next + [m], base) && Sorted(next, base)
    requires next != [] ==> Offset(base, next[|next| - 1].time) <= Offset(base, m.time)
    ensures Sorted(next + [m], base) && multiset(next + [m]) == multiset(next) + multiset{m}
  {
    hide Offset;
    forall i, j | 0 <= i < j < |next + [m]|
      ensures Offset(base, (next + [m])[i].time) <= Offset(base, (next + [m])[j].time)
    {
      if j == |next| {
        assert i < |next| - 1 ==> Offset(base, next[i].time) <= Offset(base, next[|next| - 1].time);
      }
    }
  }

  lemma InitHolds(init: seq<Media>, end: Media, m: Media, base: UInt32)
    requires HalfCircle(init + [end] + [m], base) && Sorted(init + [end], base)
    ensures HalfCircle(init + [m], base) && Sorted(init, base) && end.timed && Offset(base, end.time) < 0x8000_0000
    ensures init != [] ==> Offset(base, init[|init| - 1].time) <= Offset(base, end.time)
  {
    hide Offset;
    var all, two := init + [end] + [m], init + [end];
    assert all[|init|] == end && all[|init| + 1] == m && two[|init|] == end;
    assert forall i :: 0 <= i < |init| ==> all[i] == init[i] && two[i] == init[i];
  }

  lemma SortedBehind2(init: seq<Media>, r: seq<Media>, end: Media, m: Media, base: UInt32)
    requires |r| == |init| + 1 && Sorted(r, base) && HalfCircle(r, base) && end.timed && Offset(base, end.time) < 0x8000_0000
    requires Offset(base, m.time) < Offset(base, end.time)
    requires init == [] ==> r == [m]
    requires init != [] ==> r[|init|] in {m, init[|init| - 1]} && Offset(base, init[|init| - 1].time) <= Offset(base, end.time)
    requires multiset(r) == multiset(init) + multiset{m}
    ensures Sorted(r + [end], base) && HalfCircle(r + [end], base)
    ensures multiset(r + [end]) == multiset(init + [end]) + multiset{m}
    ensures m.time != end.time
  {
    assert HalfCircle(r + [end], base);
    assert r[|init|] == m || (init != [] && r[|init|] == init[|init| - 1]);
    SortedBehind(r, end, base);
  }

  predicate InHalf(m: Media, base: UInt32)
  {
    m.timed && Offset(base, m.time) < 0x8000_0000
  }

  lemma StepNext(s: State, op: Op)
    ensures op.WriteNext? && (op.m.timed || s.next != []) ==> Step(s, op).0.next == Insert(s.next, op.m)
    ensures !(op.WriteNext? && (op.m.timed || s.next != [])) ==> Step(s, op).0.next in {s.next, []}
  {
    hide Insert, Flushed;
    match op
    case Add(m, publication) => FlushKeeps(s.(current := s.current + [m]), publication);
    case WriteNext(m, publication) =>
      FlushKeeps(s.(next := Insert(s.next, m), waiting := s.waiting || s.next == []), publication);
    case FlushNow(publication) => FlushKeeps(s, publication);
    case _ =>
  }

  lemma StepSorted(s: State, op: Op, base: UInt32)
    requires Sorted(s.next, base) && HalfCircle(s.next, base)
    requires op.WriteNext? ==> InHalf(op.m, base)
    ensures Sorted(Step(s, op).0.next, base) && HalfCircle(Step(s, op).0.next, base)
  {
    hide Insert, Offset, Step;
    StepNext(s, op);
    if op.WriteNext? {
      InsertSorted(s.next, op.m, base);
    }
  }

  /** In every run whose next medias lie within half the circle, the next part is
      sorted by cyclic time. */
  lemma {:induction false} NextSorted(s: State, ops: seq<Op>, base: UInt32)
    requires Sorted(s.next, base) && HalfCircle(s.next, base)
    requires forall i :: 0 <= i < |ops| && ops[i].WriteNext? ==> InHalf(ops[i].m, base)
    ensures Sorted(Run(s, ops).0.next, base) && HalfCircle(Run(s, ops).0.next, base)
    decreases |ops|
  {
    hide Sorted, HalfCircle, Step, InHalf;
    if ops != [] {
      StepSorted(s, ops[0], base);
      NextSorted(Step(s, ops[0]).0, ops[1..], base);
    }
  }

  // ----- the object -----------------------------------------------------------------------------------

  /** The media goes in front of `next[p]`. */
  predicate Goes(next: seq<Media>, m: Media, p: nat)
    requires p <= |next|
  {
    Insert(next, m) == next[..p] + [m] + next[p..]
  }

  /** It goes somewhere in front of `next[k]`. */
  predicate Falls(next: seq<Media>, m: Media, k: nat)
    requires k <= |next|
  {
    Insert(next, m) == Insert(next[..k], m) + next[k..]
  }

  lemma InsertFrom(next: seq<Media>, m: Media)
    ensures Falls(next, m, |next|)
  {
    hide Insert;
    assert next[..|next|] == next && next[|next|..] == [] && Insert(next, m) + [] == Insert(next, m);
  }

  lemma InsertDown(next: seq<Media>, m: Media, k: nat)
    requires k <= |next| && m.timed && Falls(next, m, k)
    ensures k == 0 || Distance(next[k - 1].time, m.time) >= 0 ==> Goes(next, m, k)
    ensures k > 0 && Distance(next[k - 1].time, m.time) < 0 ==> Falls(next, m, k - 1)
  {
    hide Distance;
    var front := next[..k];
    if k > 0 {
      assert front[..k - 1] == next[..k - 1] && front[k - 1] == next[k - 1];
      InsertUnfold(front, m);
      hide Insert;
      assert [next[k - 1]] + next[k..] == next[k - 1..];
      assert Insert(next[..k - 1], m) + [next[k - 1]] + next[k..] == Insert(next[..k - 1], m) + ([next[k - 1]] + next[k..]);
    }
  }

  lemma InsertUnfold(next: seq<Media>, m: Media)
    requires next != []
    ensures Insert(next, m) == if !m.timed || Distance(next[|next| - 1].time, m.time) >= 0 then next + [m]
                               else Insert(next[..|next| - 1], m) + [next[|next| - 1]]
  {
    hide Distance;
  }

  lemma InsertLast(next: seq<Media>, m: Media)
    requires next == [] || !m.timed
    ensures Goes(next, m, |next|)
  {
    assert next[..|next|] == next && next[|next|..] == [];
  }

  lemma PutAt(c: seq<Media>, n: seq<Media>, m: Media, p: nat)
    requires p <= |n|
    ensures (c + n)[..|c| + p] + [m] + (c + n)[|c| + p..] == c + (n[..p] + [m] + n[p..])
  {
    assert (c + n)[..|c| + p] == c + n[..p] && (c + n)[|c| + p..] == n[p..];
  }

  /** The parts of a deque whose last `n` are the next publication's. */
  function Front(medias: seq<Media>, n: nat): seq<Media>
    requires n <= |medias|
  {
    medias[..|medias| - n]
  }

  function Back(medias: seq<Media>, n: nat): seq<Media>
    requires n <= |medias|
  {
    medias[|medias| - n..]
  }

  lemma BothParts(c: seq<Media>, n: seq<Media>)
    ensures Front(c + n, |n|) == c && Back(c + n, |n|) == n
  {
  }

  lemma PartsJoin(medias: seq<Media>, n: nat)
    requires n <= |medias|
    ensures Front(medias, n) + Back(medias, n) == medias && |Back(medias, n)| == n
  {
  }

  lemma ReadyStep(c: seq<Media>, limit: Option<UInt32>)
    ensures ReadyCount(c, limit) == if c == [] || Reached(c[0], limit) then 0 else 1 + ReadyCount(c[1..], limit)
  {
    hide Reached;
  }

  /** One deque, of which the last `nextSize` are the next publication's. */
  class Buffer {
    var medias: seq<Media>
    var nextSize: nat
    var aligning: bool
    var waiting: bool
    var flushing: bool
    var played: seq<Media>

    predicate Valid()
      reads this
    {
      nextSize <= |medias|
    }

    function Parts(): State
      requires Valid()
      reads this
    {
      State(Front(medias, nextSize), Back(medias, nextSize), aligning, waiting, flushing)
    }

    constructor ()
      ensures Valid() && Parts() == State([], [], false, false, false) && played == []
    {
      medias, nextSize, aligning, waiting, flushing, played := [], 0, false, false, false, [];
    }

    /** flush: medias are handed on one by one; their handlers do not come back here. */
    method Flush(publication: Option<UInt32>)
      requires Valid()
      modifies this
      ensures Valid() && Parts() == Flushed(old(Parts()), publication).0
      ensures played == old(played) + Flushed(old(Parts()), publication).1
    {
      hide Front, Back, ReadyCount, Reached, Flushed, Joined;
      assert played + [] == played;
      ghost var s := Parts();
      FlushedCases(s, publication);
      if flushing {
        return;
      }
      flushing := true;
      PartsJoin(medias, nextSize);
      var limit := FlushLimit(publication);
      var stopped := PlayUntil(limit);
      flushing := false;
      PartsJoin(medias, nextSize);
      if nextSize == 0 || (limit.Some? && !stopped) {
        return;
      }
      BackAlone(medias, nextSize);
      medias := medias[|medias| - nextSize..];
      waiting := false;
    }

    method FlushLimit(publication: Option<UInt32>) returns (limit: Option<UInt32>)
      requires Valid()
      ensures limit == Limit(Parts(), publication)
    {
      hide Front;
      if !aligning {
        return None;
      }
      return if nextSize == 0 then publication else Some(medias[|medias| - nextSize].time);
    }

    /** Medias of the current part, up to the first that reaches the limit. */
    method PlayUntil(limit: Option<UInt32>) returns (stopped: bool)
      requires Valid()
      modifies `medias, `played
      ensures Valid()
      ensures var s := old(Parts());
        var k := ReadyCount(s.current, limit);
        stopped == (k < |s.current|) && Parts() == s.(current := s.current[k..]) && played == old(played) + s.current[..k]
    {
      hide ReadyCount, Reached, Front, Back;
      ghost var before, done, c, n := played, [], Front(medias, nextSize), Back(medias, nextSize);
      PartsJoin(medias, nextSize);
      ghost var all := c;
      assert done + c == c && before + done == before;
      while |medias| > nextSize
        invariant medias == c + n && |n| == nextSize && done + c == all && played == before + done
        invariant ReadyCount(all, limit) == |done| + ReadyCount(c, limit)
        decreases |medias|
      {
        ReadyStep(c, limit);
        FirstOf(done, c, n);
        if Reached(medias[0], limit) {
          BothParts(c, n);
          Halves(done, c);
          return true;
        }
        assert before + (done + [c[0]]) == before + done + [c[0]];
        played := played + [medias[0]];
        medias := medias[1..];
        done, c := done + [c[0]], c[1..];
      }
      ReadyStep(c, limit);
      BothParts(c, n);
      Halves(done, c);
      return false;
    }

    /** The overloads of add: `true` when the media is kept or dropped, else it is to
        be played by the caller. */
    method Add(m: Media, publication: Option<UInt32>) returns (taken: bool)
      requires Valid()
      modifies this
      ensures Valid() && Parts() == Step(old(Parts()), Op.Add(m, publication)).0
      ensures played + (if taken then [] else [m]) == old(played) + Step(old(Parts()), Op.Add(m, publication)).1
    {
      hide Flushed, Front, Back;
      ghost var s := Parts();
      assert played + [] == played;
      PartsJoin(medias, nextSize);
      AmongCurrent(medias, nextSize, m);
      if flushing {
        return false;
      }
      if nextSize > 0 && !waiting {
        return true;
      }
      if !m.timed && nextSize >= |medias| {
        return false;
      }
      var k := |medias| - nextSize;
      medias := medias[..k] + [m] + medias[k..];
      assert Parts() == s.(current := s.current + [m]);
      if waiting {
        Flush(publication);
      }
      return true;
    }

    /** writeMedia and its overloads, which begin with no media without a time. */
    method WriteMedia(m: Media, publication: Option<UInt32>)
      requires Valid()
      modifies this
      ensures Valid() && Parts() == Step(old(Parts()), WriteNext(m, publication)).0
      ensures played == old(played) + Step(old(Parts()), WriteNext(m, publication)).1
    {
      hide Flushed, Front, Back, Insert;
      ghost var s := Parts();
      assert played + [] == played;
      PartsJoin(medias, nextSize);
      if !m.timed && nextSize == 0 {
        return;
      }
      var it := |medias|;
      if nextSize > 0 && m.timed {
        it := Behind(m);
      } else {
        InsertLast(s.next, m);
      }
      ghost var p := it - |s.current|;
      PutAt(s.current, s.next, m, p);
      medias := medias[..it] + [m] + medias[it..];
      nextSize := nextSize + 1;
      BothParts(s.current, s.next[..p] + [m] + s.next[p..]);
      if nextSize == 1 {
        waiting := true;
      }
      Flush(publication);
    }

    /** From the end of the next part, past what is later than the media. */
    method Behind(m: Media) returns (it: nat)
      requires Valid() && nextSize > 0 && m.timed
      ensures |medias| - nextSize <= it <= |medias|
      ensures Goes(Parts().next, m, it - (|medias| - nextSize))
    {
      hide Distance, Front, Insert;
      it := |medias|;
      ghost var next := Parts().next;
      InsertFrom(next, m);
      for i := 0 to nextSize
        invariant it == |medias| - i && Falls(next, m, nextSize - i)
      {
        InsertDown(next, m, nextSize - i);
        if Distance(medias[it - 1].time, m.time) >= 0 {
          return;
        }
        it := it - 1;
      }
      InsertDown(next, m, 0);
    }

    method Clear()
      requires Valid()
      modifies this
      ensures Valid() && Parts() == Step(old(Parts()), Op.Clear).0 && played == old(played)
    {
      if !flushing {
        medias := medias[|medias| - nextSize..];
      }
    }

    method ClearUntil(untilTime: UInt32)
      requires Valid()
      modifies this
      ensures Valid() && Parts() == Step(old(Parts()), Op.ClearUntil(untilTime)).0 && played == old(played)
    {
      if flushing {
        return;
      }
      hide Front, Back;
      ghost var done, c, n := [], Front(medias, nextSize), Back(medias, nextSize);
      PartsJoin(medias, nextSize);
      ghost var all := c;
      assert done + c == c;
      while |medias| > nextSize
        invariant nextSize == old(nextSize) && aligning == old(aligning) && waiting == old(waiting) && !flushing
        invariant played == old(played)
        invariant medias == c + n && |n| == nextSize && done + c == all
        invariant Before(all, untilTime) == |done| + Before(c, untilTime)
        decreases |medias|
      {
        FirstOf(done, c, n);
        if medias[0].timed && Distance(medias[0].time, untilTime) <= 0 {
          BothParts(c, n);
          Halves(done, c);
          return;
        }
        medias := medias[1..];
        done, c := done + [c[0]], c[1..];
      }
      BothParts(c, n);
      Halves(done, c);
    }

    /** setNext: `had` when a next publication was set, `done` when it is the one now
        subscribed to, `aligned` for a new one whose clock is close or not. */
    method SetNext(had: bool, done: bool, aligned: Option<bool>)
      requires Valid()
      modifies this
      ensures Valid() && Parts() == Step(old(Parts()), Op.SetNext(had, done, aligned)).0 && played == old(played)
    {
      if had {
        Forget(done);
      }
      aligning := false;
      if aligned.Some? {
        aligning := aligned.value;
        waiting := true;
      }
    }

    /** No next publication any more: its medias go, or are now the current ones. */
    method Forget(done: bool)
      requires Valid()
      modifies this
      ensures Valid() && aligning == old(aligning) && flushing == old(flushing) && played == old(played)
      ensures !waiting && Parts().next == []
      ensures Parts().current == if !done then old(Parts()).current
                                 else (if flushing then old(Parts()).current else []) + old(Parts()).next
    {
      ghost var c, n := Front(medias, nextSize), Back(medias, nextSize);
      PartsJoin(medias, nextSize);
      assert [] + n == n;
      waiting := false;
      if !done {
        medias := medias[..|medias| - nextSize];
      } else {
        if !flushing {
          medias := medias[|medias| - nextSize..];
        }
      }
      nextSize := 0;
      WholeFront(medias);
    }
  }

  lemma WholeFront(medias: seq<Media>)
    ensures Front(medias, 0) == medias && Back(medias, 0) == []
  {
  }

  lemma BackAlone(medias: seq<Media>, n: nat)
    requires n <= |medias|
    ensures var b := medias[|medias| - n..];
      b == Back(medias, n) && Front(b, n) == [] && Back(b, n) == b
  {
  }

  lemma AmongCurrent(medias: seq<Media>, n: nat, m: Media)
    requires n <= |medias|
    ensures var k := |medias| - n;
      var all := medias[..k] + [m] + medias[k..];
      Front(all, n) == Front(medias, n) + [m] && Back(all, n) == Back(medias, n)
  {
  }

  lemma FirstOf(done: seq<Media>, c: seq<Media>, n: seq<Media>)
    requires c != []
    ensures (c + n)[0] == c[0] && (c + n)[1..] == c[1..] + n && done + [c[0]] + c[1..] == done + c
  {
  }

  lemma Halves(done: seq<Media>, c: seq<Media>)
    ensures (done + c)[..|done|] == done && (done + c)[|done|..] == c
  {
  }
}
