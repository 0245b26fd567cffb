/** Exactly where a run is cut into segments, told by the medias alone. */
module SegmentRuns {
  import opened Options
  import opened Bytes
  import opened Segments

  /** The segment under way: whether it has begun, whether the last video was a key frame
      with no other frame behind it, how many key sequences it holds, from when it lasts,
      the latest time, and the longest duration of a segment so far. */
  datatype Ledger = Ledger(begun: bool, onKey: bool, held: nat, start: UInt32, latest: UInt32, longest: UInt16)

  function Opened(duration: UInt16): Ledger
  {
    Ledger(false, false, 0, 0, 0, duration)
  }

  /** A key frame behind anything else. */
  predicate StartsKeys(l: Ledger, m: Media)
  {
    m.Video? && m.frame == Key && !l.onKey
  }

  /** Frames and sound; of key frames in sequence the first. */
  predicate MayEnd(l: Ledger, m: Media)
  {
    (m.Audio? && !m.isConfig) || (m.Video? && m.frame == Inter) || StartsKeys(l, m)
  }

  /** A segment with key sequences ends before the next one, once it has lasted a third of
      the longest, in whole seconds; one without, at any media, once it has lasted the
      longest. A multiple of 256 sequences counts as none. */
  predicate Ends(l: Ledger, m: Media)
  {
    l.begun && MayEnd(l, m)
    && var lasted := Distance(l.start, m.time);
       lasted >= 0
       && if StartsKeys(l, m) then l.held % 256 != 0 && lasted / 1000 >= (l.longest + 500) / 3000
          else l.held % 256 == 0 && lasted >= l.longest
  }

  function Account(l: Ledger, m: Media): Ledger
  {
    var onKey := if m.Video? then m.frame == Key else if m.Audio? && !m.isConfig then false else l.onKey;
    if !MayEnd(l, m) then l.(onKey := onKey)
    else
      var ends := Ends(l, m);
      var lasted := Distance(l.start, m.time);
      Ledger(
        true, onKey,
        (if ends then 0 else l.held) + (if StartsKeys(l, m) then 1 else 0),
        if ends || !l.begun then m.time else l.start,
        if !l.begun || Distance(l.latest, m.time) > 0 then m.time else l.latest,
        if ends && lasted > l.longest then lasted % 0x1_0000 else l.longest)
  }

  function AccountAll(l: Ledger, input: seq<Media>): Ledger
    decreases |input|
  {
    if input == [] then l else AccountAll(Account(l, input[0]), input[1..])
  }

  predicate Matches(s: State, l: Ledger)
  {
    && s.first == !l.begun && s.keying == l.onKey && s.keys == l.held % 256 && s.maxDuration == l.longest
    && (l.begun ==> s.segTime == l.start && s.lastTime == l.latest)
  }

  /** A media that cannot end a segment. */
  lemma Passes(s: State, m: Media)
    requires !Tries(s, m)
    ensures var s2 := Step(s, m).0;
      && s2 == s.(keying := s2.keying, properties := s2.properties, audios := s2.audios, videos := s2.videos)
      && s2.keying == if m.Video? then m.frame == Key else s.keying
  {
    hide NewSegment, VideoConfigs, Stored, Timed;
  }

  lemma TriesIs(s: State, l: Ledger, m: Media)
    requires Matches(s, l)
    ensures Tries(s, m) == MayEnd(l, m)
    ensures Tries(s, m) ==> m.Audio? || m.Video?
  {
  }

  /** The decision itself. */
  lemma Decides(s: State, l: Ledger, m: Media)
    requires Matches(s, l) && Tries(s, m) && (m.Audio? || m.Video?)
    ensures var next := NewSegment(Trying(s, m), m.time);
      && next.0 == Ends(l, m)
      && next.1.first == false && next.1.keying == (m.Video? && m.frame == Key)
      && next.1.keys == (if Ends(l, m) then 0 else l.held % 256)
      && next.1.segTime == Account(l, m).start && next.1.lastTime == Account(l, m).latest
      && next.1.maxDuration == Account(l, m).longest
  {
    hide Opening, Timed, Distance;
  }

  lemma StepMatches(s: State, l: Ledger, m: Media)
    requires Matches(s, l)
    ensures Matches(Step(s, m).0, Account(l, m)) && (Cuts(s, m) <==> Ends(l, m))
  {
    hide Step, Cuts, NewSegment, Distance;
    TriesIs(s, l, m);
    StepTries(s, m);
    if Tries(s, m) {
      Decides(s, l, m);
      assert forall n: nat :: (n % 256 + 1) % 256 == (n + 1) % 256;
    } else {
      Passes(s, m);
    }
  }

  lemma {:induction false} RunMatches(s: State, l: Ledger, input: seq<Media>)
    requires Matches(s, l)
    ensures Matches(Run(s, input).0, AccountAll(l, input))
    decreases |input|
  {
    hide Step, Account, Matches;
    if input != [] {
      StepMatches(s, l, input[0]);
      RunMatches(Step(s, input[0]).0, Account(l, input[0]), input[1..]);
    }
  }

  /** In every run, a media cuts if and only if the segment under way ends there. */
  lemma CutsExactly(s: State, input: seq<Media>, m: Media)
    ensures Cuts(Run(Begun(s), input).0, m) <==> Ends(AccountAll(Opened(s.duration), input), m)
  {
    hide Run, AccountAll, Ends, Cuts;
    RunMatches(Begun(s), Opened(s.duration), input);
    StepMatches(Run(Begun(s), input).0, AccountAll(Opened(s.duration), input), m);
  }

  function TimeOf(m: Media): UInt32
  {
    if m.Audio? || m.Video? then m.time else 0
  }

  /** What a media writes when it cuts nothing: a key frame behind others the video
      configurations in force again, the tracks in order, at its own time; a video
      configuration nothing; any other itself alone. */
  lemma UncutWrites(s: State, input: seq<Media>, m: Media)
    requires s.videos == map[] && !Cuts(Run(s, input).0, m)
    ensures var s1 := Run(s, input).0;
      var videos := VideoConfigs(s1.videos, 0, TimeOf(m));
      && Step(s1, m).1 == (if BeginsKeys(s1, m) then videos else []) + (if Deferred(m) then [] else [Write(m)])
      && ListsFrom(videos, LiveVideos(map[], input), true, 0, TimeOf(m))
  {
    hide Run, LiveVideos, VideoConfigs, Untimed, ListsFrom, Step;
    var s1 := Run(s, input).0;
    ConfigsLive(s, input);
    NoneUntimed();
    ConfigsListed(s1.videos, 0, TimeOf(m));
    UncutIs(s1, m);
  }

  lemma UncutIs(s: State, m: Media)
    requires !Cuts(s, m)
    ensures Step(s, m).1
      == (if BeginsKeys(s, m) then VideoConfigs(s.videos, 0, TimeOf(m)) else [])
         + (if Deferred(m) then [] else [Write(m)])
  {
    hide VideoConfigs, Stored, Timed, NewSegment;
    assert [] + [Write(m)] == [Write(m)];
    StepTries(s, m);
    if Tries(s, m) {
      NoCut(Trying(s, m), m.time);
    }
  }

  /** The end of a run tells the segment under way, up to the latest time. */
  lemma EndTold(s: State, input: seq<Media>)
    ensures var l := AccountAll(Opened(s.duration), input);
      Ending(Run(Begun(s), input).0) == [EndMedia] + if l.begun then [Segment(Distance(l.start, l.latest) % 0x1_0000)] else []
  {
    hide Run, AccountAll, Distance;
    RunMatches(Begun(s), Opened(s.duration), input);
  }

  /** What a cut tells: how long the segment lasted, on 16 bits. */
  lemma CutTold(s: State, input: seq<Media>, m: Media)
    requires Cuts(Run(Begun(s), input).0, m)
    ensures var l := AccountAll(Opened(s.duration), input);
      (m.Audio? || m.Video?)
      && [EndMedia, Segment(Distance(l.start, m.time) % 0x1_0000), BeginMedia] <= Step(Run(Begun(s), input).0, m).1
  {
    hide Run, AccountAll, Distance, Ends, Cuts, Opening, Step;
    RunMatches(Begun(s), Opened(s.duration), input);
    StepMatches(Run(Begun(s), input).0, AccountAll(Opened(s.duration), input), m);
    CutIs(Run(Begun(s), input).0, m);
    EndsBegun(AccountAll(Opened(s.duration), input), m);
  }

  lemma EndsBegun(l: Ledger, m: Media)
    requires Ends(l, m)
    ensures l.begun
  {
  }
}
