/** Segments::Writer: one media stream cut into segments, each readable alone. */
module Segments {
  import opened Options
  import opened Bytes

  datatype Frame = Key | Config | Inter

  /** Any media or configuration; `info` stands for the tag fields cutting does not look at. */
  datatype Media =
    | Audio(track: byte, time: UInt32, isConfig: bool, info: nat, packet: seq<byte>)
    | Video(track: byte, time: UInt32, frame: Frame, info: nat, packet: seq<byte>)
    | Data(track: byte, packet: seq<byte>)
    | Properties(packet: seq<byte>)

  /** What goes to the inner writer, and the segment ends told in between. */
  datatype Event = BeginMedia | EndMedia | Segment(duration: UInt16) | Write(media: Media)

  /** A configuration to be repeated. */
  datatype Saved = Saved(time: UInt32, info: nat, packet: seq<byte>)

  datatype State = State(
    first: bool, keying: bool, keys: byte,
    segTime: UInt32, lastTime: UInt32,
    duration: UInt16, maxDuration: UInt16,
    properties: Option<seq<byte>>, audios: map<byte, Saved>, videos: map<byte, Saved>)

  // ----- when a segment ends -------------------------------------------------------------

  /** Whether a segment of this length may end here. */
  predicate Due(s: State, duration: int)
  {
    duration >= 0
    && if s.keying then s.keys != 0 && duration / 1000 >= (s.maxDuration + 500) / 3000
       else s.keys == 0 && duration >= s.maxDuration
  }

  function Later(s: State, time: UInt32): State
  {
    if Distance(s.lastTime, time) > 0 then s.(lastTime := time) else s
  }

  /** Every configuration of `m` from track `k` on, at `time`. */
  function VideoConfigs(m: map<byte, Saved>, k: nat, time: UInt32): seq<Event>
    decreases 256 - k
  {
    if k >= 256 then []
    else (if k in m then [Write(Video(k, time, Frame.Config, m[k].info, m[k].packet))] else []) + VideoConfigs(m, k + 1, time)
  }

  function AudioConfigs(m: map<byte, Saved>, k: nat, time: UInt32): seq<Event>
    decreases 256 - k
  {
    if k >= 256 then []
    else (if k in m then [Write(Audio(k, time, true, m[k].info, m[k].packet))] else []) + AudioConfigs(m, k + 1, time)
  }

  function Timed(m: map<byte, Saved>, time: UInt32): map<byte, Saved>
  {
    map k | k in m :: m[k].(time := time)
  }

  /** What a new segment opens with. */
  function Opening(s: State, time: UInt32): seq<Event>
  {
    (if s.properties.Some? then [Write(Properties(s.properties.value))] else [])
    + VideoConfigs(s.videos, 0, time) + AudioConfigs(s.audios, 0, time)
  }

  function Cut(s: State, time: UInt32, duration: int): State
  {
    s.(maxDuration := if duration > s.maxDuration then duration % 0x1_0000 else s.maxDuration,
       segTime := time, keys := 0, videos := Timed(s.videos, time), audios := Timed(s.audios, time))
  }

  /** newSegment: whether it cut, and what it then wrote. */
  function NewSegment(s: State, time: UInt32): (bool, State, seq<Event>)
  {
    if s.first then (false, s.(first := false, lastTime := time, segTime := time), [])
    else
      var s1 := Later(s, time);
      var duration := Distance(s1.segTime, time);
      if !Due(s1, duration) then (false, s1, [])
      else
        (true, Cut(s1, time, duration), [EndMedia, Segment(duration % 0x1_0000), BeginMedia] + Opening(s1, time))
  }

  // ----- one call ---------------------------------------------------------------------------

  function Stored(m: map<byte, Saved>, track: byte, c: Saved): map<byte, Saved>
  {
    if c.packet != [] then m[track := c] else map k | k in m && k != track :: m[k]
  }

  /** At the first of some key frames: a new segment, or at least the configurations again. */
  function KeySequence(s: State, time: UInt32): (State, seq<Event>)
  {
    var cut := NewSegment(s.(keying := true), time);
    var s1 := if cut.0 then cut.1 else cut.1.(videos := Timed(cut.1.videos, time));
    (s1.(keys := (s1.keys + 1) % 0x100), if cut.0 then cut.2 else VideoConfigs(s.videos, 0, time))
  }

  /** What is done before the media itself is written, if it is. */
  function Before(s: State, m: Media): (State, seq<Event>)
  {
    match m
    case Properties(packet) => (s.(properties := Some(packet)), [])
    case Data(_, _) => (s, [])
    case Audio(track, time, isConfig, info, packet) =>
      if isConfig then (s.(audios := Stored(s.audios, track, Saved(0, info, packet))), [])
      else (NewSegment(s.(keying := false), time).1, NewSegment(s.(keying := false), time).2)
    case Video(track, time, frame, info, packet) =>
      match frame
      case Config => (s.(videos := Stored(s.videos, track, Saved(0, info, packet)), keying := false), [])
      case Key => if s.keying then (s, []) else KeySequence(s, time)
      case Inter => (NewSegment(s.(keying := false), time).1, NewSegment(s.(keying := false), time).2)
  }

  predicate Deferred(m: Media)
  {
    m.Video? && m.frame == Frame.Config
  }

  function Step(s: State, m: Media): (State, seq<Event>)
  {
    (Before(s, m).0, Before(s, m).1 + if Deferred(m) then [] else [Write(m)])
  }

  function Begun(s: State): State
  {
    s.(first := true, keying := false, keys := 0, maxDuration := s.duration)
  }

  /** The last segment, its duration not what decided it. */
  function Ending(s: State): seq<Event>
  {
    [EndMedia] + if s.first then [] else [Segment(Distance(s.segTime, s.lastTime) % 0x1_0000)]
  }

  function Run(s: State, input: seq<Media>): (State, seq<Event>)
    decreases |input|
  {
    if input == [] then (s, [])
    else
      var first := Step(s, input[0]);
      (Run(first.0, input[1..]).0, first.1 + Run(first.0, input[1..]).1)
  }

  // ----- nothing but configurations is added, and nothing is lost -------------------------------

  /** Media proper: no configuration, no properties. */
  predicate Proper(m: Media)
  {
    match m
    case Audio(_, _, isConfig, _, _) => !isConfig
    case Video(_, _, frame, _, _) => frame != Frame.Config
    case Data(_, _) => true
    case Properties(_) => false
  }

  function Erased(events: seq<Event>): seq<Media>
  {
    if events == [] then []
    else (if events[0].Write? && Proper(events[0].media) then [events[0].media] else []) + Erased(events[1..])
  }

  function ProperOf(input: seq<Media>): seq<Media>
  {
    if input == [] then [] else (if Proper(input[0]) then [input[0]] else []) + ProperOf(input[1..])
  }

  lemma {:induction false} ErasedAppend(a: seq<Event>, b: seq<Event>)
    ensures Erased(a + b) == Erased(a) + Erased(b)
    decreases |a|
  {
    if a == [] {
      assert a + b == b;
    } else {
      assert (a + b)[1..] == a[1..] + b;
      ErasedAppend(a[1..], b);
    }
  }

  lemma {:induction false} ConfigsErased(m: map<byte, Saved>, k: nat, time: UInt32)
    ensures Erased(VideoConfigs(m, k, time)) == [] && Erased(AudioConfigs(m, k, time)) == []
    decreases 256 - k
  {
    if k < 256 {
      ConfigsErased(m, k + 1, time);
      var v, a := VideoConfigs(m, k + 1, time), AudioConfigs(m, k + 1, time);
      if k in m {
        ErasedAppend([Write(Video(k, time, Frame.Config, m[k].info, m[k].packet))], v);
        ErasedAppend([Write(Audio(k, time, true, m[k].info, m[k].packet))], a);
      } else {
        assert [] + v == v && [] + a == a;
      }
    }
  }

  lemma OpeningErased(s: State, time: UInt32)
    ensures Erased(Opening(s, time)) == []
  {
    hide VideoConfigs, AudioConfigs;
    ConfigsErased(s.videos, 0, time);
    ConfigsErased(s.audios, 0, time);
    var p := if s.properties.Some? then [Write(Properties(s.properties.value))] else [];
    ErasedAppend(p + VideoConfigs(s.videos, 0, time), AudioConfigs(s.audios, 0, time));
    ErasedAppend(p, VideoConfigs(s.videos, 0, time));
  }

  lemma NewSegmentErased(s: State, time: UInt32)
    ensures Erased(NewSegment(s, time).2) == []
  {
    hide Opening, Cut, Due;
    var s1 := Later(s, time);
    var duration := Distance(s1.segTime, time) % 0x1_0000;
    OpeningErased(s1, time);
    ErasedAppend([EndMedia, Segment(duration), BeginMedia], Opening(s1, time));
    MarksErased(duration);
  }

  lemma MarksErased(d: UInt16)
    ensures Erased([EndMedia, Segment(d), BeginMedia]) == []
  {
    assert [EndMedia, Segment(d), BeginMedia] == [EndMedia] + ([Segment(d)] + [BeginMedia]);
    ErasedAppend([EndMedia], [Segment(d)] + [BeginMedia]);
    ErasedAppend([Segment(d)], [BeginMedia]);
  }

  lemma StepErased(s: State, m: Media)
    ensures Erased(Step(s, m).1) == if Proper(m) then [m] else []
  {
    hide NewSegment, VideoConfigs, Stored, Erased;
    BeforeErased(s, m);
    ErasedAppend(Before(s, m).1, if Deferred(m) then [] else [Write(m)]);
    OneErased(m);
    assert Before(s, m).1 + [] == Before(s, m).1;
  }

  lemma OneErased(m: Media)
    ensures Erased([Write(m)]) == (if Proper(m) then [m] else []) && Erased([]) == []
  {
    assert [Write(m)][1..] == [];
  }

  lemma BeforeErased(s: State, m: Media)
    ensures Erased(Before(s, m).1) == []
  {
    hide NewSegment, VideoConfigs, Stored;
    if m.Audio? || m.Video? {
      NewSegmentErased(s.(keying := true), m.time);
      NewSegmentErased(s.(keying := false), m.time);
      ConfigsErased(s.videos, 0, m.time);
    }
  }

  /** Conservation: with marks, properties and configurations erased, the output is
      the media given, in order. */
  lemma {:induction false} Conserved(s: State, input: seq<Media>)
    ensures Erased(Run(s, input).1) == ProperOf(input)
    decreases |input|
  {
    hide Step;
    if input != [] {
      var first := Step(s, input[0]);
      StepErased(s, input[0]);
      Conserved(first.0, input[1..]);
      ErasedAppend(first.1, Run(first.0, input[1..]).1);
    }
  }

  // ----- where segments are cut -----------------------------------------------------------------------

  predicate Cuts(s: State, m: Media)
  {
    EndMedia in Step(s, m).1
  }

  /** Whether `m` begins a key sequence. */
  predicate BeginsKeys(s: State, m: Media)
  {
    m.Video? && m.frame == Key && !s.keying
  }

  /** How many key sequences the current segment holds after `m`, if it held `n`. */
  function Sequences(s: State, n: nat, m: Media): nat
  {
    (if Cuts(s, m) then 0 else n) + if BeginsKeys(s, m) then 1 else 0
  }

  lemma {:induction false} ConfigsEndNothing(m: map<byte, Saved>, k: nat, time: UInt32)
    ensures EndMedia !in VideoConfigs(m, k, time) && EndMedia !in AudioConfigs(m, k, time)
    decreases 256 - k
  {
    if k < 256 {
      ConfigsEndNothing(m, k + 1, time);
    }
  }

  lemma NewSegmentCuts(s: State, time: UInt32)
    ensures EndMedia in NewSegment(s, time).2 <==> NewSegment(s, time).0
    ensures NewSegment(s, time).1.keys == if NewSegment(s, time).0 then 0 else s.keys
    ensures NewSegment(s, time).0 ==> (s.keying <==> s.keys != 0)
  {
    hide Opening;
    if NewSegment(s, time).0 {
      assert NewSegment(s, time).2[0] == EndMedia;
    }
  }

  /** Whether the media may end the segment, and the state in which that is decided. */
  predicate Tries(s: State, m: Media)
  {
    match m
    case Audio(_, _, isConfig, _, _) => !isConfig
    case Video(_, _, frame, _, _) => frame == Inter || (frame == Key && !s.keying)
    case _ => false
  }

  function Trying(s: State, m: Media): State
  {
    s.(keying := m.Video? && m.frame == Key)
  }

  lemma StepTries(s: State, m: Media)
    ensures Tries(s, m) ==> m.Audio? || m.Video?
    ensures Cuts(s, m) <==> Tries(s, m) && NewSegment(Trying(s, m), m.time).0
    ensures Tries(s, m) ==>
      var s1 := NewSegment(Trying(s, m), m.time).1;
      var s2 := Step(s, m).0;
      s2 == s1.(keys := s2.keys, videos := s2.videos)
      && s2.keys == if m.Video? && m.frame == Key then (s1.keys + 1) % 0x100 else s1.keys
    ensures !Tries(s, m) ==>
      var s2 := Step(s, m).0;
      s2.first == s.first && s2.segTime == s.segTime && s2.keys == s.keys
  {
    hide NewSegment, VideoConfigs, Stored;
    if m.Audio? || m.Video? {
      NewSegmentCuts(s.(keying := true), m.time);
      NewSegmentCuts(s.(keying := false), m.time);
      ConfigsEndNothing(s.videos, 0, m.time);
    }
  }

  lemma StepKeys(s: State, n: nat, m: Media)
    requires s.keys == n % 0x100
    ensures Step(s, m).0.keys == Sequences(s, n, m) % 0x100
    ensures Cuts(s, m) && n % 0x100 != 0 ==> m.Video? && m.frame == Key
    ensures Cuts(s, m) && n % 0x100 == 0 ==> !(m.Video? && m.frame == Key)
  {
    hide NewSegment, Step, Cuts;
    StepTries(s, m);
    if Tries(s, m) {
      NewSegmentCuts(Trying(s, m), m.time);
    }
  }

  /** How many key sequences the segment under way holds after all of `input`. */
  function Held(s: State, n: nat, input: seq<Media>): nat
    decreases |input|
  {
    if input == [] then n else Held(Step(s, input[0]).0, Sequences(s, n, input[0]), input[1..])
  }

  lemma {:induction false} KeysCount(s: State, n: nat, input: seq<Media>)
    requires s.keys == n % 0x100
    ensures Run(s, input).0.keys == Held(s, n, input) % 0x100
    decreases |input|
  {
    hide Step, Sequences;
    if input != [] {
      StepKeys(s, n, input[0]);
      KeysCount(Step(s, input[0]).0, Sequences(s, n, input[0]), input[1..]);
    }
  }

  /** In every run, a segment that holds key sequences is cut right before a key frame
      and nowhere else; the 8-bit count makes a multiple of 256 of them look like none. */
  lemma CutAtKey(s: State, input: seq<Media>, m: Media)
    requires s.keys == 0 && Cuts(Run(s, input).0, m)
    ensures m.Video? && m.frame == Key <==> Held(s, 0, input) % 0x100 != 0
  {
    hide Cuts, Run, Held;
    KeysCount(s, 0, input);
    StepKeys(Run(s, input).0, Held(s, 0, input), m);
  }

  /** Key frames at one time, each followed by another frame. */
  function Pairs(time: UInt32, k: nat): seq<Media>
  {
    if k == 0 then []
    else [Video(0, time, Key, 0, []), Video(0, time, Inter, 0, [])] + Pairs(time, k - 1)
  }

  /** A segment under way that began at `time` and lasts too long to end there. */
  predicate BeganAt(s: State, time: UInt32)
  {
    !s.keying && s.maxDuration >= 2500 && (s.first || (s.segTime == time && s.lastTime == time))
  }

  lemma PairStays(s: State, n: nat, time: UInt32)
    requires BeganAt(s, time)
    ensures var key, other := Video(0, time, Key, 0, []), Video(0, time, Inter, 0, []);
      var s1 := Step(s, key).0;
      var s2 := Step(s1, other).0;
      && Sequences(s, n, key) == n + 1 && Sequences(s1, n + 1, other) == n + 1
      && BeganAt(s2, time) && !s2.first && s2.maxDuration == s.maxDuration
  {
    hide Step, Cuts, VideoConfigs, AudioConfigs, Timed;
    var key, other := Video(0, time, Key, 0, []), Video(0, time, Inter, 0, []);
    StepTries(s, key);
    StepTries(Step(s, key).0, other);
    KeyingAfter(s, time);
  }

  lemma KeyingAfter(s: State, time: UInt32)
    ensures Step(Step(s, Video(0, time, Key, 0, [])).0, Video(0, time, Inter, 0, [])).0.keying == false
  {
    hide Opening, VideoConfigs, Timed;
  }

  lemma {:induction false} PairsHeld(s: State, n: nat, time: UInt32, k: nat)
    requires BeganAt(s, time)
    ensures Held(s, n, Pairs(time, k)) == n + k
    ensures var end := Run(s, Pairs(time, k)).0;
      BeganAt(end, time) && end.maxDuration == s.maxDuration && (k > 0 ==> !end.first)
    decreases k
  {
    hide Step, Sequences, BeganAt;
    if k > 0 {
      PairStays(s, n, time);
      var key, other := Video(0, time, Key, 0, []), Video(0, time, Inter, 0, []);
      var s1 := Step(s, key).0;
      var input := Pairs(time, k);
      assert input[1..][0] == other && input[1..][1..] == Pairs(time, k - 1);
      PairsHeld(Step(s1, other).0, n + 1, time, k - 1);
      assert Held(s, n, input) == Held(s1, n + 1, input[1..]);
      assert Run(s, input).0 == Run(s1, input[1..]).0;
    }
  }

  /** The wrap does occur: after any multiple of 256 key sequences at one time, any frame
      late enough cuts the segment, and the next begins with no key frame. */
  lemma WrapCuts(s: State, time: UInt32, k: nat)
    requires s.duration >= 2500 && k > 0 && k % 0x100 == 0
    ensures var m := Video(0, (time + s.duration) % 0x1_0000_0000, Inter, 0, []);
      var input := Pairs(time, k);
      Held(Begun(s), 0, input) == k && Cuts(Run(Begun(s), input).0, m)
  {
    hide Step, Cuts, Run, Held, Pairs;
    var input := Pairs(time, k);
    PairsHeld(Begun(s), 0, time, k);
    KeysCount(Begun(s), 0, input);
    StepTries(Run(Begun(s), input).0, Video(0, (time + s.duration) % 0x1_0000_0000, Inter, 0, []));
  }

  /** The longest duration so far: what a segment without video must last, and of what
      a third, in seconds, is enough before a key frame. */
  lemma CutLongEnough(s: State, m: Media)
    requires Cuts(s, m)
    ensures m.Audio? || m.Video?
    ensures Distance(s.segTime, m.time) >= 0
    ensures s.keys == 0 ==> Distance(s.segTime, m.time) >= s.maxDuration
    ensures s.keys != 0 ==> Distance(s.segTime, m.time) / 1000 >= (s.maxDuration + 500) / 3000
  {
    hide Opening, Step, Cuts, Distance;
    StepTries(s, m);
    NewSegmentCuts(Trying(s, m), m.time);
  }

  // ----- what a new segment opens with ------------------------------------------------------------------

  /** The configurations in force: the last of each track, unless an empty one took it away. */
  function LiveVideos(live: map<byte, (nat, seq<byte>)>, input: seq<Media>): map<byte, (nat, seq<byte>)>
    decreases |input|
  {
    if input == [] then live
    else
      var m := input[0];
      LiveVideos(if Deferred(m) then
                   if m.packet != [] then live[m.track := (m.info, m.packet)] else live - {m.track}
                 else live, input[1..])
  }

  function LiveAudios(live: map<byte, (nat, seq<byte>)>, input: seq<Media>): map<byte, (nat, seq<byte>)>
    decreases |input|
  {
    if input == [] then live
    else
      var m := input[0];
      LiveAudios(if m.Audio? && m.isConfig then
                   if m.packet != [] then live[m.track := (m.info, m.packet)] else live - {m.track}
                 else live, input[1..])
  }

  function Untimed(m: map<byte, Saved>): map<byte, (nat, seq<byte>)>
  {
    map k | k in m :: (m[k].info, m[k].packet)
  }

  lemma UntimedTimed(m: map<byte, Saved>, time: UInt32)
    ensures Untimed(Timed(m, time)) == Untimed(m)
  {
  }

  lemma UntimedStored(m: map<byte, Saved>, track: byte, c: Saved)
    ensures Untimed(Stored(m, track, c))
      == if c.packet != [] then Untimed(m)[track := (c.info, c.packet)] else Untimed(m) - {track}
  {
  }

  lemma NewSegmentConfigs(s: State, time: UInt32)
    ensures Untimed(NewSegment(s, time).1.videos) == Untimed(s.videos)
    ensures Untimed(NewSegment(s, time).1.audios) == Untimed(s.audios)
  {
    hide Opening, Untimed, Timed, Due;
    UntimedTimed(s.videos, time);
    UntimedTimed(s.audios, time);
  }

  lemma StepConfigs(s: State, m: Media)
    ensures Untimed(Step(s, m).0.videos) == LiveVideos(Untimed(s.videos), [m])
    ensures Untimed(Step(s, m).0.audios) == LiveAudios(Untimed(s.audios), [m])
  {
    hide NewSegment, VideoConfigs, Stored, Untimed, Timed;
    assert [m][1..] == [];
    assert forall live :: LiveVideos(live, []) == live && LiveAudios(live, []) == live;
    if m.Audio? || m.Video? {
      NewSegmentConfigs(s.(keying := true), m.time);
      NewSegmentConfigs(s.(keying := false), m.time);
      UntimedTimed(NewSegment(s.(keying := true), m.time).1.videos, m.time);
      UntimedStored(s.videos, m.track, Saved(0, m.info, m.packet));
      UntimedStored(s.audios, m.track, Saved(0, m.info, m.packet));
    }
  }

  /** The stored configurations are the ones in force, whatever segments came between. */
  lemma {:induction false} ConfigsLive(s: State, input: seq<Media>)
    ensures Untimed(Run(s, input).0.videos) == LiveVideos(Untimed(s.videos), input)
    ensures Untimed(Run(s, input).0.audios) == LiveAudios(Untimed(s.audios), input)
    decreases |input|
  {
    hide Step, Untimed;
    if input != [] {
      var m := input[0];
      StepConfigs(s, m);
      assert [m][0] == m && [m][1..] == [];
      ConfigsLive(Step(s, m).0, input[1..]);
    }
  }

  /** The last properties given. */
  function LastProperties(last: Option<seq<byte>>, input: seq<Media>): Option<seq<byte>>
    decreases |input|
  {
    if input == [] then last
    else LastProperties(if input[0].Properties? then Some(input[0].packet) else last, input[1..])
  }

  lemma StepProperties(s: State, m: Media)
    ensures Step(s, m).0.properties == if m.Properties? then Some(m.packet) else s.properties
  {
    hide Opening, VideoConfigs, Timed, Stored, Due;
  }

  lemma {:induction false} PropertiesLive(s: State, input: seq<Media>)
    ensures Run(s, input).0.properties == LastProperties(s.properties, input)
    decreases |input|
  {
    hide Step;
    if input != [] {
      StepProperties(s, input[0]);
      PropertiesLive(Step(s, input[0]).0, input[1..]);
    }
  }

  /** Exactly one event for each configuration, in the order of the tracks. */
  ghost predicate ListsFrom(events: seq<Event>, live: map<byte, (nat, seq<byte>)>, video: bool, k: nat, time: UInt32)
  {
    && (forall i, j :: 0 <= i < j < |events| ==> InOrder(events[i], events[j]))
    && forall e :: e in events <==>
        e.Write? && k <= TrackOf(e.media) < 256 && TrackOf(e.media) in live
        && e.media == ConfigMedia(video, TrackOf(e.media), time, live[TrackOf(e.media)])
  }

  predicate InOrder(a: Event, b: Event)
  {
    a.Write? && b.Write? && TrackOf(a.media) < TrackOf(b.media)
  }

  function TrackOf(m: Media): int
  {
    if m.Properties? then -1 else m.track
  }

  function ConfigMedia(video: bool, track: byte, time: UInt32, c: (nat, seq<byte>)): Media
  {
    if video then Video(track, time, Frame.Config, c.0, c.1) else Audio(track, time, true, c.0, c.1)
  }

  lemma {:induction false} ConfigsListed(m: map<byte, Saved>, k: nat, time: UInt32)
    ensures ListsFrom(VideoConfigs(m, k, time), Untimed(m), true, k, time)
    ensures ListsFrom(AudioConfigs(m, k, time), Untimed(m), false, k, time)
    decreases 256 - k
  {
    if k < 256 {
      ConfigsListed(m, k + 1, time);
      ListsMore(VideoConfigs(m, k + 1, time), Untimed(m), true, k, time);
      ListsMore(AudioConfigs(m, k + 1, time), Untimed(m), false, k, time);
      if k !in m {
        assert [] + VideoConfigs(m, k + 1, time) == VideoConfigs(m, k + 1, time);
        assert [] + AudioConfigs(m, k + 1, time) == AudioConfigs(m, k + 1, time);
      }
    }
  }

  lemma ListsMore(events: seq<Event>, live: map<byte, (nat, seq<byte>)>, video: bool, k: byte, time: UInt32)
    requires ListsFrom(events, live, video, k + 1, time)
    ensures ListsFrom(if k in live then [Write(ConfigMedia(video, k, time, live[k]))] + events else events, live, video, k, time)
  {
    if k in live {
      var all := [Write(ConfigMedia(video, k, time, live[k]))] + events;
      forall i, j | 0 <= i < j < |all| ensures InOrder(all[i], all[j]) {
        assert all[j] == events[j - 1];
        if i > 0 {
          assert all[i] == events[i - 1];
        } else {
          assert events[j - 1] in events;
        }
      }
    }
  }

  /** When a media cuts, what that step writes. */
  lemma CutIs(s: State, m: Media)
    requires Cuts(s, m)
    ensures m.Audio? || m.Video?
    ensures Step(s, m).1 == [EndMedia, Segment(Distance(s.segTime, m.time) % 0x1_0000), BeginMedia] + Opening(s, m.time) + [Write(m)]
  {
    hide VideoConfigs, AudioConfigs, Stored, Due, Timed;
    ConfigsEndNothing(s.videos, 0, if m.Audio? || m.Video? then m.time else 0);
  }

  /** Every later segment opens with the last properties and exactly the configurations
      in force, each once, at the time of the media that follows. */
  lemma SegmentOpens(s: State, input: seq<Media>, m: Media)
    requires s.videos == map[] && s.audios == map[] && s.properties == None && Cuts(Run(s, input).0, m)
    ensures m.Audio? || m.Video?
    ensures var s1, properties := Run(s, input).0, LastProperties(None, input);
      var videos, audios := VideoConfigs(s1.videos, 0, m.time), AudioConfigs(s1.audios, 0, m.time);
      Step(s1, m).1 == [EndMedia, Segment(Distance(s1.segTime, m.time) % 0x1_0000), BeginMedia]
        + ((if properties.Some? then [Write(Properties(properties.value))] else []) + videos + audios) + [Write(m)]
      && ListsFrom(videos, LiveVideos(map[], input), true, 0, m.time)
      && ListsFrom(audios, LiveAudios(map[], input), false, 0, m.time)
  {
    hide Run, LastProperties, LiveVideos, LiveAudios, VideoConfigs, AudioConfigs, Untimed, ListsFrom, Cuts, Step;
    var s1 := Run(s, input).0;
    PropertiesLive(s, input);
    ConfigsLive(s, input);
    NoneUntimed();
    CutIs(s1, m);
    ConfigsListed(s1.videos, 0, m.time);
    ConfigsListed(s1.audios, 0, m.time);
  }

  lemma NoneUntimed()
    ensures Untimed(map[]) == map[]
  {
  }

  // ----- durations -----------------------------------------------------------------------------------

  /** The length of the segment a media ends, before it is cut to 16 bits. */
  function Ended(s: State, m: Media): nat
  {
    if Cuts(s, m) && (m.Audio? || m.Video?) && Distance(s.segTime, m.time) >= 0 then Distance(s.segTime, m.time) else 0
  }

  function TotalEnded(s: State, input: seq<Media>): nat
    decreases |input|
  {
    if input == [] then 0 else Ended(s, input[0]) + TotalEnded(Step(s, input[0]).0, input[1..])
  }

  lemma NewSegmentTime(s: State, time: UInt32)
    requires !s.first
    ensures var cut := NewSegment(s, time);
      !cut.1.first && (if cut.0 then cut.1.segTime == time && Distance(s.segTime, time) >= 0 else cut.1.segTime == s.segTime)
  {
    hide Opening;
  }

  lemma DistanceAdds(from: UInt32, to: UInt32)
    ensures (from + Distance(from, to)) % U32 == to
  {
    var m := (to - from) % U32;
    assert (from + m) % U32 == to;
    assert (from + (m - U32)) % U32 == to;
  }

  lemma StepTime(s: State, m: Media)
    requires !s.first
    ensures !Step(s, m).0.first
    ensures Step(s, m).0.segTime == (s.segTime + Ended(s, m)) % U32
    ensures Cuts(s, m) ==> (m.Audio? || m.Video?) && Ended(s, m) == Distance(s.segTime, m.time)
  {
    hide NewSegment, Step, Cuts, Distance;
    StepTries(s, m);
    if Tries(s, m) {
      NewSegmentTime(Trying(s, m), m.time);
      DistanceAdds(s.segTime, m.time);
    }
  }

  /** The lengths of the segments ended, none cut to 16 bits, add up to the time
      between the first segment's start and the last one's, on the 32-bit clock. */
  lemma {:induction false} DurationsTelescope(s: State, input: seq<Media>)
    requires !s.first
    ensures !Run(s, input).0.first
    ensures (s.segTime + TotalEnded(s, input)) % U32 == Run(s, input).0.segTime
    decreases |input|
  {
    hide Step, Ended;
    if input != [] {
      var m := input[0];
      StepTime(s, m);
      var s1 := Step(s, m).0;
      DurationsTelescope(s1, input[1..]);
      AddWraps(s.segTime, Ended(s, m), TotalEnded(s1, input[1..]));
    }
  }

  lemma AddWraps(a: int, b: int, c: int)
    ensures ((a + b) % U32 + c) % U32 == (a + (b + c)) % U32
  {
    assert a + b == (a + b) / U32 * U32 + (a + b) % U32;
    WholeTurns((a + b) % U32 + c, (a + b) / U32);
  }

  /** With the last segment, told when the media ends, they add up to the latest time. */
  lemma EndTelescopes(s: State, input: seq<Media>)
    requires !s.first
    ensures var s1 := Run(s, input).0;
      Ending(s1) == [EndMedia, Segment(Distance(s1.segTime, s1.lastTime) % 0x1_0000)]
      && (s.segTime + (TotalEnded(s, input) + Distance(s1.segTime, s1.lastTime))) % U32 == s1.lastTime
  {
    hide Run, TotalEnded, Distance;
    DurationsTelescope(s, input);
    var s1 := Run(s, input).0;
    AddWraps(s.segTime, TotalEnded(s, input), Distance(s1.segTime, s1.lastTime));
    DistanceAdds(s1.segTime, s1.lastTime);
  }

  // ----- the writer object ------------------------------------------------------------------------------

  class Writer {
    var first: bool
    var keying: bool
    var keys: byte
    var segTime: UInt32
    var lastTime: UInt32
    var duration: UInt16
    var maxDuration: UInt16
    var properties: Option<seq<byte>>
    var audios: map<byte, Saved>
    var videos: map<byte, Saved>
    var out: seq<Event>

    function Current(): State
      reads this
    {
      State(first, keying, keys, segTime, lastTime, duration, maxDuration, properties, audios, videos)
    }

    /** At least one second. */
    constructor (d: UInt16)
      ensures duration == Max(d, 1000) == maxDuration && videos == map[] && audios == map[] && properties == None && out == []
    {
      first, keying, keys, segTime, lastTime := true, false, 0, 0, 0;
      duration, maxDuration := Max(d, 1000), Max(d, 1000);
      properties, audios, videos, out := None, map[], map[], [];
    }

    method SetDuration(value: UInt16) returns (longest: UInt16)
      modifies `duration, `maxDuration
      ensures duration == Max(value, 1000) && longest == maxDuration == Max(old(maxDuration), duration)
    {
      duration := Max(value, 1000);
      if duration > maxDuration {
        maxDuration := duration;
      }
      return maxDuration;
    }

    method Begin()
      modifies this
      ensures Current() == Begun(old(Current())) && out == old(out) + [BeginMedia]
    {
      first, keying, keys, maxDuration := true, false, 0, duration;
      out := out + [BeginMedia];
    }

    method End()
      modifies this
      ensures out == old(out) + Ending(old(Current()))
      ensures videos == map[] && audios == map[] && properties == None
    {
      out := out + [EndMedia];
      if !first {
        out := out + [Segment(Distance(segTime, lastTime) % 0x1_0000)];
      }
      properties, audios, videos := None, map[], map[];
    }

    method StartSegment(time: UInt32) returns (cut: bool)
      modifies `first, `lastTime, `segTime, `keys, `maxDuration, `audios, `videos, `out
      ensures (cut, Current()) == (NewSegment(old(Current()), time).0, NewSegment(old(Current()), time).1)
      ensures out == old(out) + NewSegment(old(Current()), time).2
    {
      hide Opening, Cut;
      assert out + [] == out;
      if first {
        first := false;
        lastTime, segTime := time, time;
        return false;
      }
      if Distance(lastTime, time) > 0 {
        lastTime := time;
      }
      var length := Distance(segTime, time);
      if length < 0 {
        return false;
      }
      if keying {
        if keys == 0 || length / 1000 < (maxDuration + 500) / 3000 {
          return false;
        }
      } else if keys != 0 || length < maxDuration {
        return false;
      }
      EndSegment(time, length);
      return true;
    }

    /** The segment under way ends and the next one opens. */
    method EndSegment(time: UInt32, length: nat)
      modifies `segTime, `keys, `maxDuration, `audios, `videos, `out
      ensures Current() == Cut(old(Current()), time, length)
      ensures out == old(out) + ([EndMedia, Segment(length % 0x1_0000), BeginMedia] + Opening(old(Current()), time))
    {
      hide Opening, Timed;
      ghost var before := out;
      if length > maxDuration {
        maxDuration := length % 0x1_0000;
      }
      segTime, keys := time, 0;
      var marks := [EndMedia, Segment(length % 0x1_0000), BeginMedia];
      out := out + marks;
      ghost var s := Current();
      WriteOpening(time);
      OpeningSame(s, old(Current()), time);
      assert before + marks + Opening(s, time) == before + (marks + Opening(s, time));
    }

    method WriteOpening(time: UInt32)
      modifies `audios, `videos, `out
      ensures out == old(out) + Opening(old(Current()), time)
      ensures videos == Timed(old(videos), time) && audios == Timed(old(audios), time)
    {
      hide VideoConfigs, AudioConfigs, Timed;
      ghost var before := out;
      var first := if properties.Some? then [Write(Properties(properties.value))] else [];
      out := out + first;
      ghost var v, a := VideoConfigs(videos, 0, time), AudioConfigs(audios, 0, time);
      WriteVideoConfigs(time);
      WriteAudioConfigs(time);
      assert before + first + v + a == before + (first + v + a);
    }

    /** Every video configuration again, at the given time. */
    method WriteVideoConfigs(time: UInt32)
      modifies `videos, `out
      ensures out == old(out) + VideoConfigs(old(videos), 0, time) && videos == Timed(old(videos), time)
    {
      ghost var total := out + VideoConfigs(videos, 0, time);
      for k := 0 to 256
        invariant videos == old(videos) && out + VideoConfigs(videos, k, time) == total
      {
        ghost var before := out;
        if k in videos {
          out := out + [Write(Video(k, time, Frame.Config, videos[k].info, videos[k].packet))];
          assert before + ([out[|before|]] + VideoConfigs(videos, k + 1, time)) == out + VideoConfigs(videos, k + 1, time);
        } else {
          assert [] + VideoConfigs(videos, k + 1, time) == VideoConfigs(videos, k + 1, time);
        }
      }
      assert out + [] == out;
      videos := Timed(videos, time);
    }

    method WriteAudioConfigs(time: UInt32)
      modifies `audios, `out
      ensures out == old(out) + AudioConfigs(old(audios), 0, time) && audios == Timed(old(audios), time)
    {
      ghost var total := out + AudioConfigs(audios, 0, time);
      for k := 0 to 256
        invariant audios == old(audios) && out + AudioConfigs(audios, k, time) == total
      {
        ghost var before := out;
        if k in audios {
          out := out + [Write(Audio(k, time, true, audios[k].info, audios[k].packet))];
          assert before + ([out[|before|]] + AudioConfigs(audios, k + 1, time)) == out + AudioConfigs(audios, k + 1, time);
        } else {
          assert [] + AudioConfigs(audios, k + 1, time) == AudioConfigs(audios, k + 1, time);
        }
      }
      assert out + [] == out;
      audios := Timed(audios, time);
    }

    /** writeAudio, writeVideo, writeData or writeProperties. */
    method WriteMedia(m: Media)
      modifies this
      ensures Current() == Step(old(Current()), m).0 && out == old(out) + Step(old(Current()), m).1
    {
      hide NewSegment, Stored, KeySequence;
      ghost var before, s := out, Current();
      assert out + [] == out;
      if m.Properties? {
        properties := Some(m.packet);
      } else if m.Audio? {
        AudioFirst(m);
      } else if m.Video? {
        VideoFirst(m);
      }
      assert Current() == Before(s, m).0 && out == before + Before(s, m).1;
      hide Before;
      if !Deferred(m) {
        out := out + [Write(m)];
      } else {
        assert out + [] == out;
      }
      assert before + (Before(s, m).1 + [Write(m)]) == before + Before(s, m).1 + [Write(m)];
    }

    method AudioFirst(m: Media)
      requires m.Audio?
      modifies this
      ensures Current() == Before(old(Current()), m).0 && out == old(out) + Before(old(Current()), m).1
    {
      hide NewSegment, Stored;
      assert out + [] == out;
      if m.isConfig {
        audios := Stored(audios, m.track, Saved(0, m.info, m.packet));
      } else {
        keying := false;
        var _ := StartSegment(m.time);
      }
    }

    method VideoFirst(m: Media)
      requires m.Video?
      modifies this
      ensures Current() == Before(old(Current()), m).0 && out == old(out) + Before(old(Current()), m).1
    {
      hide NewSegment, Stored, KeySequence;
      assert out + [] == out;
      match m.frame {
        case Config =>
          videos := Stored(videos, m.track, Saved(0, m.info, m.packet));
          keying := false;
        case Key =>
          if !keying {
            FirstKey(m.time);
          }
        case Inter =>
          keying := false;
          var _ := StartSegment(m.time);
      }
    }

    method FirstKey(time: UInt32)
      modifies this
      ensures Current() == KeySequence(old(Current()), time).0 && out == old(out) + KeySequence(old(Current()), time).1
    {
      hide NewSegment, VideoConfigs;
      ghost var s := Current();
      keying := true;
      var cut := StartSegment(time);
      if !cut {
        NoCut(s.(keying := true), time);
        assert out + [] == out;
        WriteVideoConfigs(time);
      }
      keys := (keys + 1) % 0x100;
    }
  }

  lemma NoCut(s: State, time: UInt32)
    requires !NewSegment(s, time).0
    ensures NewSegment(s, time).2 == [] && NewSegment(s, time).1.videos == s.videos
  {
    hide Opening;
  }

  lemma OpeningSame(s: State, s': State, time: UInt32)
    requires s.properties == s'.properties && s.videos == s'.videos && s.audios == s'.audios
    ensures Opening(s, time) == Opening(s', time)
  {
    hide VideoConfigs, AudioConfigs;
  }
}
