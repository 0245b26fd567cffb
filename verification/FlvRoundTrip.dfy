/** What FLVWriter writes, FLVReader reads, in any chunks. */
module FlvRoundTrip {
  import opened Bytes
  import opened FlvReader
  import opened FlvChunks
  import opened FlvWriter
  import opened VideoConfig
  import opened AudioConfig
  import opened Options

  /** A frame whose tag is what it announces: not a raw video frame of no kind, of a
      size that fits 24 bits, its parameter sets fitting their records; and not the
      metadata tag, whose type the reader cannot resume on. */
  predicate ValidFrame(f: Frame)
  {
    && Fields(f) && !f.Metadata? && Declared(f) < 0x100_0000
    && !(f.VideoFrame? && f.codec == 0 && f.frame == 0)
    && (IsConfig(f) && Written(f) ==> Fit(SetsOf(f)))
  }

  // ----- what must come out ---------------------------------------------------------------

  /** An AMF string of ten characters, onMetaData. */
  predicate NamesMetadata(packet: seq<byte>)
  {
    [2, 0, 10, 111, 110, 77, 101, 116, 97, 68, 97, 116, 97] <= packet
  }

  /** What the codec byte can say of a sound: the greatest of four rates that is no greater,
      or the least; AAC always the greatest and stereo; Nellymoser always mono; and of MP3
      at 8000 Hz the least. */
  function Flash(codec: byte, rate: UInt32, channels: byte): Sound
  {
    if codec == 10 then Sound(44100, 2)
    else
      Sound(if rate < 11025 then 5512 else if rate < 22050 then 11025 else if rate < 44100 then 22050 else 44100,
            if 4 <= codec <= 6 || channels == 1 then 1 else 2)
  }

  /** The media of a frame, and the fields the reader then keeps. Configurations come
      repacked; those of other codecs are key frames; and an audio frame that is not
      AAC is taken for a configuration once an audio end went before it. */
  function Expect(tags: Tags, f: Frame): (Tags, seq<Media>)
  {
    if !Written(f) then (tags, [])
    else
      match f
      case VideoFrame(track, time, codec, frame, offset, packet) =>
        if HasConfig(codec) then
          (tags.(codec := codec, frame := frame, offset := offset),
           [Video(time, Max(track, 1), codec, frame, offset,
                  if frame == FRAME_CONFIG then Repacked(codec == CODEC_HEVC, SetsOf(f)) else packet)])
        else
          (tags.(codec := codec, frame := if frame == FRAME_CONFIG then FRAME_KEY else frame, offset := 0),
           [Video(time, Max(track, 1), codec, if frame == FRAME_CONFIG then FRAME_KEY else frame, 0, packet)])
      case AudioFrame(track, time, codec, rate, channels, isConfig, packet) =>
        if AudioEnd(f) then
          (tags.(isConfig := true, config := Some(tags.sound)), [Audio(time, Max(track, 1), tags.audioCodec, tags.sound, true, [])])
        else
          var read := if codec == CODEC_AAC && isConfig then ReadConfig(packet) else None;
          var config := if read.Some? then read else tags.config;
          var sound := if config.Some? then config.value else Flash(codec, rate, channels);
          var mark := if codec == CODEC_AAC then isConfig else tags.isConfig;
          (tags.(audioCodec := codec, isConfig := mark, sound := sound, config := config),
           [Audio(time, Max(track, 1), codec, sound, mark, packet)])
      case DataFrame(track, packet) =>
        MetadataNamed(packet);
        (tags, [if NamesMetadata(packet) then Properties(Max(track, 1), packet[13..]) else Data(track, packet)])
      case Metadata(_) => (tags, [])
  }

  function ExpectAll(tags: Tags, frames: seq<Frame>): seq<Media>
    decreases |frames|
  {
    if frames == [] then [] else Expect(tags, frames[0]).1 + ExpectAll(Expect(tags, frames[0]).0, frames[1..])
  }

  // ----- the header -----------------------------------------------------------------------

  function Body(f: Frame): seq<byte>
    requires Fields(f)
  {
    Be24(Time(f)) + [Time(f) / 0x100_0000] + Be24(TrackOf(f)) + Payload(f)
  }

  lemma LowDigits(q: nat, a: byte, b: byte, c: byte)
    ensures var t := q * 0x100_0000 + a * 0x1_0000 + b * 0x100 + c;
      t % 256 == c && t / 256 % 256 == b && t / 65536 % 256 == a && t % 0x100_0000 == a * 0x1_0000 + b * 0x100 + c
  {
    var t := q * 0x100_0000 + a * 0x1_0000 + b * 0x100 + c;
    assert t == (q * 0x1_0000 + a * 0x100 + b) * 256 + c;
    assert t / 256 == q * 0x1_0000 + a * 0x100 + b == (q * 256 + a) * 256 + b;
    assert t == (q * 256 + a) * 65536 + (b * 256 + c);
    assert t / 65536 == q * 256 + a;
  }

  lemma TimeWhole(t: UInt32)
    ensures U24(Be24(t)) == t % 0x100_0000
  {
    var u := t % 0x100_0000;
    LowDigits(t / 0x100_0000, u / 65536, u / 256 % 256, u % 256);
    assert u == u / 65536 * 0x1_0000 + u / 256 % 256 * 0x100 + u % 256 by {
      assert u / 65536 == u / 256 / 256;
    }
  }

  lemma BodyReads(f: Frame)
    requires Fields(f)
    ensures TagTime(Body(f)) == Time(f) && TagTrack(Body(f)) == TrackOf(f) && Drop(Body(f), 7) == Payload(f)
  {
    hide Payload, Be24, U24;
    var t, p := Time(f), Payload(f);
    var r3, r4 := [t / 0x100_0000] + (Be24(TrackOf(f)) + p), Be24(TrackOf(f)) + p;
    assert Body(f) == Be24(t) + r3 && r3 == [t / 0x100_0000] + r4;
    TimeWhole(t);
    PrefixU24(Be24(t), r3);
    DropAppend(Be24(t), r3);
    assert Drop(r3, 1) == r4;
    DropDrop(Body(f), 3, 1);
    ReadBe24(TrackOf(f), p);
    DropDrop(Body(f), 4, 3);
  }

  lemma PrefixU24(a: seq<byte>, b: seq<byte>)
    requires |a| == 3
    ensures U24(a + b) == U24(a)
  {
  }

  // ----- each kind of tag ---------------------------------------------------------------------

  lemma VideoReads(tags: Tags, f: Frame)
    requires ValidFrame(f) && f.VideoFrame? && Written(f)
    ensures Tag(tags, TYPE_VIDEO, Body(f)) == Expect(tags, f)
  {
    hide Body, Payload, TagTime, TagTrack, VideoContent, Repacked, Collect, Record;
    BodyReads(f);
    VideoHeaderReads(tags, f);
    VideoContentReads(f, Expect(tags, f).0);
  }

  lemma VideoCodecsSplit(codec: byte, frame: byte)
    requires codec < 16 && frame < 16
    ensures VideoCodecs(codec, frame) % 0x10 == codec
    ensures VideoCodecs(codec, frame) / 0x10 == if frame == FRAME_CONFIG then FRAME_KEY else frame
    ensures !(codec == 0 && frame == 0) ==> VideoCodecs(codec, frame) != 0
  {
  }

  lemma VideoHeaderReads(tags: Tags, f: Frame)
    requires ValidFrame(f) && f.VideoFrame? && Written(f)
    ensures VideoHeader(tags, Payload(f)) == (Expect(tags, f).0, if HasConfig(f.codec) then 5 else 1)
    ensures Drop(Payload(f), if HasConfig(f.codec) then 5 else 1) == Content(f)
  {
    hide Content, Repacked, VideoCodecs, Be24, U24, SetsOf, Written;
    VideoCodecsSplit(f.codec, f.frame);
    var c := VideoCodecs(f.codec, f.frame);
    if HasConfig(f.codec) {
      var flag: byte := if f.frame == FRAME_CONFIG then 0 else 1;
      var r2 := Be24(f.offset) + Content(f);
      assert Payload(f) == [c] + ([flag] + r2);
      assert Drop(Payload(f), 1) == [flag] + r2;
      assert Drop(Payload(f), 2) == r2;
      ReadBe24(f.offset, Content(f));
      DropDrop(Payload(f), 2, 3);
    } else {
      assert Payload(f) == [c] + Content(f);
      DropAppend([c], Content(f));
    }
  }

  lemma VideoContentReads(f: Frame, tags: Tags)
    requires ValidFrame(f) && f.VideoFrame? && Written(f)
    requires tags.codec == f.codec && (HasConfig(f.codec) ==> tags.frame == f.frame)
    ensures VideoContent(tags, Content(f)) == if IsConfig(f) then Repacked(f.codec == CODEC_HEVC, SetsOf(f)) else f.packet
  {
    hide Collect, Record, ReadRecord, Repacked;
    if IsConfig(f) {
      ConfigSurvives(f.codec == CODEC_HEVC, f.packet);
    }
  }

  lemma AudioCodecsSplit(codec: byte, rate: UInt32, channels: byte)
    requires codec < 16 && codec != CODEC_MP38K
    ensures (if AudioCodecs(codec, rate, channels) / 0x10 == CODEC_MP38K then CODEC_MP3
             else AudioCodecs(codec, rate, channels) / 0x10) == codec
    ensures AudioCodecs(codec, rate, channels) / 0x10 == CODEC_AAC <==> codec == CODEC_AAC
  {
  }

  lemma AudioCodecsSound(codec: byte, rate: UInt32, channels: byte)
    requires codec < 16 && codec != CODEC_MP38K
    ensures var codecs := AudioCodecs(codec, rate, channels);
      Sound(FlashRate(codecs), codecs % 2 + 1) == Flash(codec, rate, channels)
  {
  }

  lemma AudioReads(tags: Tags, f: Frame)
    requires ValidFrame(f) && f.AudioFrame?
    ensures Tag(tags, TYPE_AUDIO, Body(f)) == Expect(tags, f)
  {
    hide Body, TagTime, TagTrack, AudioCodecs, Declared, Repacked, ReadConfig, FlashRate, Flash;
    BodyReads(f);
    AudioCodecsSplit(f.codec, f.rate, f.channels);
    AudioCodecsSound(f.codec, f.rate, f.channels);
    var p := Payload(f);
    if AudioEnd(f) {
      assert p == [];
    } else {
      var c := AudioCodecs(f.codec, f.rate, f.channels);
      if f.codec == CODEC_AAC {
        var flag: byte := if f.isConfig then 0 else 1;
        assert p == [c, flag] + f.packet;
        DropAppend([c, flag], f.packet);
      } else {
        assert p == [c] + f.packet;
        DropAppend([c], f.packet);
      }
    }
  }

  lemma DataReads(tags: Tags, f: Frame)
    requires ValidFrame(f) && f.DataFrame?
    ensures Tag(tags, TYPE_DATA, Body(f)) == Expect(tags, f)
  {
    hide Body, TagTime, TagTrack, Repacked, IsMetaData, NamesMetadata;
    BodyReads(f);
    assert Payload(f) == f.packet;
    MetadataNamed(f.packet);
  }

  lemma MetadataNamed(packet: seq<byte>)
    ensures IsMetaData(packet) <==> NamesMetadata(packet)
    ensures NamesMetadata(packet) ==> |packet| >= 13
  {
  }

  lemma TagReads(tags: Tags, f: Frame)
    requires ValidFrame(f) && Written(f)
    ensures Tag(tags, Kind(f), Body(f)) == Expect(tags, f)
  {
    hide Tag, Body, Expect, Written, Declared;
    match f
    case VideoFrame(_, _, _, _, _, _) => VideoReads(tags, f);
    case AudioFrame(_, _, _, _, _, _, _) => AudioReads(tags, f);
    case DataFrame(_, _) => DataReads(tags, f);
  }

  // ----- a tag in the stream ---------------------------------------------------------------------

  /** Between two tags. */
  function Between(tags: Tags): State
  {
    State(false, 5, TYPE_EMPTY, tags)
  }

  lemma KindNotEmpty(f: Frame)
    ensures !f.Metadata? ==> Kind(f) != TYPE_EMPTY
  {
  }

  /** The tag's bytes, behind four of the previous footer, and the next four. */
  lemma TagInStream(tags: Tags, gap: seq<byte>, f: Frame, rest: seq<byte>)
    requires ValidFrame(f) && Written(f) && |gap| == 4
    ensures var r := gap + (TagBytes(f) + rest);
      var next := Footer(f) + rest;
      Loop(Between(tags), r) == With(Expect(tags, f).1, Loop(Between(Expect(tags, f).0), next))
      && (Clean(Between(tags), r) <==> Clean(Between(Expect(tags, f).0), next))
  {
    hide Loop, Clean, Tag, Expect, Body, Payload, Declared, Written, Kind, Header, Footer, TagBytes, Sized, CleanSized;
    var s := Between(tags);
    var next := Footer(f) + rest;
    var r3 := Body(f) + next;
    var length := Be24(Declared(f));
    TagText(f, gap, rest);
    var r := gap + ([Kind(f)] + (length + r3));
    KindNotEmpty(f);
    LoopKind(s, r);
    CleanUnfold(s, r);
    assert r[4] == Kind(f) && r[5..] == length + r3;
    SizedInStream(s.(kind := Kind(f), size := 0), f, next);
    TagReads(tags, f);
  }

  lemma TagText(f: Frame, gap: seq<byte>, rest: seq<byte>)
    requires Fields(f) && Written(f)
    ensures gap + (TagBytes(f) + rest) == gap + ([Kind(f)] + (Be24(Declared(f)) + (Body(f) + (Footer(f) + rest))))
  {
    hide Payload, Declared, Written, Kind, Footer, Be24;
    var a := Be24(Time(f)) + [Time(f) / 0x100_0000] + Be24(TrackOf(f));
    assert Header(f) == Be24(Declared(f)) + a;
    assert Body(f) == a + Payload(f);
    hide Header, Body;
    Pieces([Kind(f)], Be24(Declared(f)), a, Payload(f), Footer(f), rest);
  }

  lemma Pieces(k: seq<byte>, l: seq<byte>, a: seq<byte>, p: seq<byte>, f: seq<byte>, rest: seq<byte>)
    ensures k + (l + a + (p + f)) + rest == k + (l + (a + p + (f + rest)))
  {
    assert l + a + (p + f) + rest == l + (a + p + (f + rest));
    assert k + (l + a + (p + f)) + rest == k + (l + a + (p + f) + rest);
  }

  lemma BodySize(f: Frame)
    requires ValidFrame(f)
    ensures |Body(f)| == 7 + Declared(f)
  {
    hide Payload, Declared;
    DeclaredIs(f);
  }

  lemma SizedInStream(s: State, f: Frame, next: seq<byte>)
    requires ValidFrame(f) && Written(f) && s == State(false, 0, Kind(f), s.tags) && s.kind != TYPE_EMPTY
    requires Tag(s.tags, Kind(f), Body(f)) == Tag(s.tags, s.kind, Body(f))
    ensures var r := Be24(Declared(f)) + (Body(f) + next);
      var tag := Tag(s.tags, Kind(f), Body(f));
      Sized(s, r) == With(tag.1, Loop(Between(tag.0), next)) && (CleanSized(s, r) <==> Clean(Between(tag.0), next))
  {
    hide Loop, Clean, Tag, Body, Declared, Written, Kind, Be24, U24;
    var length, r3 := Be24(Declared(f)), Body(f) + next;
    var r := length + r3;
    BodySize(f);
    ReadBe24(Declared(f), r3);
    assert r[3..] == r3;
    var size := Declared(f) + 7;
    assert r3[..size] == Body(f) && r3[size..] == next;
    assert Behind(s.(size := size), Body(f)) == Between(Tag(s.tags, Kind(f), Body(f)).0);
  }

  /** Whatever the frames, tag after tag, and four bytes of a footer left at the end. */
  lemma {:induction false} FramesRead(tags: Tags, gap: seq<byte>, frames: seq<Frame>)
    requires |gap| == 4 && forall f :: f in frames ==> ValidFrame(f) && Fields(f)
    ensures Loop(Between(tags), gap + TagsOf(frames)).media == ExpectAll(tags, frames)
    ensures Clean(Between(tags), gap + TagsOf(frames))
    decreases |frames|
  {
    hide Loop, Clean, Expect, TagBytes, Footer, ValidFrame, Fields, Written;
    if frames == [] {
      assert gap + [] == gap;
      GapWaits(Between(tags), gap);
    } else {
      var f, rest := frames[0], TagsOf(frames[1..]);
      if Written(f) {
        TagInStream(tags, gap, f, rest);
        FramesRead(Expect(tags, f).0, Footer(f), frames[1..]);
      } else {
        NotWritten(tags, f);
        assert [] + rest == rest;
        FramesRead(tags, gap, frames[1..]);
        assert [] + ExpectAll(tags, frames[1..]) == ExpectAll(tags, frames[1..]);
      }
    }
  }

  lemma GapWaits(s: State, gap: seq<byte>)
    requires |gap| == 4 && s.kind == TYPE_EMPTY && s.size == 5
    ensures Loop(s, gap).media == [] && Clean(s, gap)
  {
  }

  lemma NotWritten(tags: Tags, f: Frame)
    requires Fields(f) && !Written(f)
    ensures TagBytes(f) == [] && Expect(tags, f) == (tags, [])
  {
  }

  lemma SignatureRead(rest: seq<byte>)
    ensures Parse(FIRST, SIGNATURE + rest) == Loop(Between(FIRST.tags), rest)
    ensures CleanParse(FIRST, SIGNATURE + rest) <==> Clean(Between(FIRST.tags), rest)
  {
    hide Loop, Clean;
    var r := SIGNATURE + rest;
    assert r[9..] == rest;
    assert r[5..][0] == 0 && r[5..][1] == 0 && r[5..][2] == 0 && r[5..][3] == 9;
    assert U24(r) == 0x464C56;
    assert U32At(r[5..]) == 9;
  }

  /** Bytes in front of the signature are passed over three at a time. */
  lemma JunkSkipped(junk: seq<byte>, r: seq<byte>)
    requires |junk| == 3 && junk != [0x46, 0x4C, 0x56] && |r| >= 6
    ensures Parse(FIRST, junk + r) == Parse(FIRST, r)
  {
    assert (junk + r)[3..] == r;
    hide Loop;
  }

  /** Any header, as long as it says, and the size 0 behind it. */
  lemma AnyHeaderRead(version: byte, flags: byte, extra: seq<byte>, gap: seq<byte>, rest: seq<byte>)
    requires |extra| + 9 < U32 && |gap| == 4 && rest != []
    ensures Parse(FIRST, [0x46, 0x4C, 0x56, version, flags] + Be32(9 + |extra|) + (extra + gap + rest))
      == Loop(Between(FIRST.tags), gap + rest)
  {
    hide Loop, Be32;
    var head := [0x46, 0x4C, 0x56, version, flags];
    var size, body := 9 + |extra|, extra + gap + rest;
    var r := head + Be32(size) + body;
    assert r[5..] == Be32(size) + body;
    ReadBe32(size, body);
    assert r[9..] == body;
    assert U24(r) == 0x464C56;
    SkipsHeader(State(false, if size > 9 then size - 4 else 5, TYPE_EMPTY, FIRST.tags), body, rest);
    SkipsHeader(Between(FIRST.tags), gap + rest, rest);
  }

  lemma SkipsHeader(s: State, r: seq<byte>, rest: seq<byte>)
    requires s.kind == TYPE_EMPTY && s.size > 0 && rest != [] && |r| == s.size - 1 + |rest| && r[s.size - 1..] == rest
    ensures Loop(s, r) == Sized(s.(kind := rest[0], size := 0), rest[1..])
  {
    hide Loop, Sized;
    LoopUnfold(s, r);
    assert Drop(rest, 1) == rest[1..];
  }

  /** Write then read: the stream of any frames, cut in any chunks, gives each frame's
      media in order. */
  lemma FlvRoundTrip(frames: seq<Frame>, chunks: seq<seq<byte>>)
    requires forall f :: f in frames ==> ValidFrame(f) && Fields(f)
    requires Concat(chunks) == Stream(frames)
    ensures FeedAll(FIRST, [], chunks).media == ExpectAll(FIRST.tags, frames)
  {
    hide Parse, CleanParse, Loop, Clean, FeedAll, TagsOf, ExpectAll, ValidFrame;
    var gap: seq<byte> := [0, 0, 0, 0];
    SignatureRead(gap + TagsOf(frames));
    FramesRead(FIRST.tags, gap, frames);
    assert [] + Stream(frames) == Stream(frames);
    NotEmpty(frames, chunks);
    ChunksDoNotMatter(FIRST, [], chunks);
  }

  lemma NotEmpty(frames: seq<Frame>, chunks: seq<seq<byte>>)
    requires forall f :: f in frames ==> Fields(f)
    requires Concat(chunks) == Stream(frames)
    ensures chunks != []
  {
    assert Stream(frames)[0] == 0x46;
  }

  // ----- the configuration mark of audio ----------------------------------------------------

  /** Audio that says whether it is a configuration: AAC, and an audio end. */
  predicate Marks(f: Frame)
  {
    f.AudioFrame? && (AudioEnd(f) || f.codec == CODEC_AAC)
  }

  /** The mark of the last frame that has one. */
  function LastMark(frames: seq<Frame>): bool
  {
    if frames == [] then false
    else
      var f := frames[|frames| - 1];
      if Marks(f) then f.isConfig else LastMark(frames[..|frames| - 1])
  }

  /** How many of the frames are written. */
  function WrittenCount(frames: seq<Frame>): nat
  {
    if frames == [] then 0 else WrittenCount(frames[..|frames| - 1]) + if Written(frames[|frames| - 1]) then 1 else 0
  }

  /** The fields the reader keeps after the frames. */
  function TagsAfter(tags: Tags, frames: seq<Frame>): Tags
  {
    if frames == [] then tags
    else Expect(TagsAfter(tags, frames[..|frames| - 1]), frames[|frames| - 1]).0
  }

  lemma {:induction false} ExpectSplit(tags: Tags, frames: seq<Frame>, i: nat)
    requires i <= |frames|
    ensures ExpectAll(tags, frames) == ExpectAll(tags, frames[..i]) + ExpectAll(TagsAfter(tags, frames[..i]), frames[i..])
    decreases i
  {
    hide Expect;
    if i == 0 {
      assert frames[..0] == [] && frames[0..] == frames;
    } else {
      var j, f := i - 1, frames[i - 1];
      var before := TagsAfter(tags, frames[..j]);
      assert frames[..i][..j] == frames[..j] && frames[..i][j..] == [f] && frames[j..][1..] == frames[i..];
      ExpectSplit(tags, frames, j);
      ExpectSplit(tags, frames[..i], j);
      assert TagsAfter(tags, frames[..i]) == Expect(before, f).0;
      assert ExpectAll(before, [f]) == Expect(before, f).1 + [];
      assert ExpectAll(before, frames[j..]) == Expect(before, f).1 + ExpectAll(Expect(before, f).0, frames[i..]);
    }
  }

  lemma {:induction false} CountIs(tags: Tags, frames: seq<Frame>)
    requires !tags.isConfig && forall f :: f in frames ==> !f.Metadata?
    ensures |ExpectAll(tags, frames)| == WrittenCount(frames)
    ensures TagsAfter(tags, frames).isConfig == LastMark(frames)
  {
    if frames != [] {
      var j := |frames| - 1;
      var front := frames[..j];
      CountIs(tags, front);
      ExpectSplit(tags, frames, j);
      OneFrame(TagsAfter(tags, front), frames[j]);
      assert frames[j..] == [frames[j]] && frames == front + [frames[j]];
    }
  }

  lemma OneFrame(tags: Tags, f: Frame)
    requires !f.Metadata?
    ensures |ExpectAll(tags, [f])| == if Written(f) then 1 else 0
    ensures Expect(tags, f).0.isConfig == if Marks(f) then f.isConfig else tags.isConfig
  {
    hide Repacked, NamesMetadata, Written;
    assert ExpectAll(tags, [f]) == Expect(tags, f).1 + [];
    AudioWritten(f);
  }

  lemma AudioWritten(f: Frame)
    ensures f.AudioFrame? ==> Written(f)
  {
  }

  /** However the stream is cut, an audio frame comes out with the mark it went in with
      exactly if it is AAC or its mark is that of the last AAC frame or audio end. */
  lemma AudioConfigExactly(frames: seq<Frame>, chunks: seq<seq<byte>>, i: nat)
    requires forall f :: f in frames ==> ValidFrame(f) && Fields(f)
    requires Concat(chunks) == Stream(frames)
    requires i < |frames| && frames[i].AudioFrame? && !AudioEnd(frames[i])
    ensures var media, k := FeedAll(FIRST, [], chunks).media, WrittenCount(frames[..i]);
      && k < |media| && media[k].Audio? && media[k].content == frames[i].packet
      && (media[k].isConfig == frames[i].isConfig
          <==> frames[i].codec == CODEC_AAC || frames[i].isConfig == LastMark(frames[..i]))
  {
    hide FeedAll, Concat, Stream, WrittenCount, LastMark, Fields;
    var f, front := frames[i], frames[..i];
    forall g | g in front ensures !g.Metadata? {
      assert g in frames;
    }
    FlvRoundTrip(frames, chunks);
    ExpectSplit(FIRST.tags, frames, i);
    CountIs(FIRST.tags, front);
    hide ValidFrame;
    var tags := TagsAfter(FIRST.tags, front);
    AudioWritten(f);
    hide Written, ExpectAll, TagsAfter;
    ExpectUnfold(tags, frames[i..]);
    assert Expect(tags, f).1[0] == ExpectAll(FIRST.tags, frames)[|ExpectAll(FIRST.tags, front)|];
  }

  // ----- the sound ------------------------------------------------------------------------------

  /** Frames behind which the codec byte no longer says what a sound is. */
  predicate SetsSound(f: Frame)
  {
    f.AudioFrame? && (AudioEnd(f) || (f.codec == CODEC_AAC && f.isConfig))
  }

  lemma {:induction false} ConfigKept(tags: Tags, frames: seq<Frame>)
    requires forall i :: 0 <= i < |frames| ==> !SetsSound(frames[i])
    ensures TagsAfter(tags, frames).config == tags.config
  {
    hide Written, Flash, Repacked, NamesMetadata, ReadConfig;
    if frames != [] {
      ConfigKept(tags, frames[..|frames| - 1]);
    }
  }

  /** Rate and channels of a sound come out as they went in, with no AAC configuration and no
      audio end before, exactly if the codec byte can say them: one of four rates, one or
      two channels as the codec allows; and of AAC only the greatest rate and stereo. */
  lemma SoundExactly(frames: seq<Frame>, chunks: seq<seq<byte>>, i: nat)
    requires forall f :: f in frames ==> ValidFrame(f) && Fields(f)
    requires Concat(chunks) == Stream(frames)
    requires i < |frames| && frames[i].AudioFrame? && forall j :: 0 <= j <= i ==> !SetsSound(frames[j])
    ensures var media, k, f := FeedAll(FIRST, [], chunks).media, |ExpectAll(FIRST.tags, frames[..i])|, frames[i];
      && k < |media| && media[k].Audio? && media[k].content == f.packet
      && (media[k].sound == Sound(f.rate, f.channels)
          <==> if f.codec == CODEC_AAC then f.rate == 44100 && f.channels == 2
               else f.rate in {5512, 11025, 22050, 44100}
                    && if 4 <= f.codec <= 6 then f.channels == 1 else f.channels in {1, 2})
  {
    hide FeedAll, Concat, Stream, Fields, ReadConfig;
    var f, front := frames[i], frames[..i];
    FlvRoundTrip(frames, chunks);
    ExpectSplit(FIRST.tags, frames, i);
    ConfigKept(FIRST.tags, front);
    hide ValidFrame;
    var tags := TagsAfter(FIRST.tags, front);
    AudioWritten(f);
    hide Written, ExpectAll, TagsAfter;
    ExpectUnfold(tags, frames[i..]);
    assert Expect(tags, f).1[0] == ExpectAll(FIRST.tags, frames)[|ExpectAll(FIRST.tags, front)|];
  }

  lemma {:induction false} SoundKept(tags: Tags, frames: seq<Frame>)
    requires tags.config.Some? && forall i :: 0 <= i < |frames| ==> !SetsSound(frames[i])
    ensures forall m :: m in ExpectAll(tags, frames) && m.Audio? ==> m.sound == tags.config.value
    decreases |frames|
  {
    hide Written, Flash, Repacked, NamesMetadata, ReadConfig;
    if frames != [] {
      SoundKept(Expect(tags, frames[0]).0, frames[1..]);
    }
  }

  lemma ExpectThree(tags: Tags, front: seq<Frame>, end: Frame, rest: seq<Frame>)
    ensures var next := Expect(TagsAfter(tags, front), end);
      ExpectAll(tags, front + [end] + rest) == ExpectAll(tags, front) + next.1 + ExpectAll(next.0, rest)
  {
    hide Expect, ExpectAll, TagsAfter;
    var frames := front + [end] + rest;
    ExpectSplit(tags, frames, |front|);
    assert frames[..|front|] == front && frames[|front|..] == [end] + rest;
    ExpectUnfold(TagsAfter(tags, front), [end] + rest);
    assert ([end] + rest)[1..] == rest;
  }

  /** Behind an audio end every sound comes out as the one before it, whatever it is, up to
      the next AAC configuration or audio end. */
  lemma SoundFrozen(frames: seq<Frame>, front: seq<Frame>, end: Frame, rest: seq<Frame>, chunks: seq<seq<byte>>)
    requires forall f :: f in frames ==> ValidFrame(f) && Fields(f)
    requires Concat(chunks) == Stream(frames) && frames == front + [end] + rest
    requires AudioEnd(end) && forall i :: 0 <= i < |rest| ==> !SetsSound(rest[i])
    ensures var media, tags := FeedAll(FIRST, [], chunks).media, TagsAfter(FIRST.tags, front);
      var later := ExpectAll(Expect(tags, end).0, rest);
      && media == ExpectAll(FIRST.tags, front) + [Audio(end.time, Max(end.track, 1), tags.audioCodec, tags.sound, true, [])] + later
      && forall m :: m in later && m.Audio? ==> m.sound == tags.sound
  {
    FlvRoundTrip(frames, chunks);
    hide *;
    ExpectThree(FIRST.tags, front, end, rest);
    EndExpected(TagsAfter(FIRST.tags, front), end);
    SoundKept(Expect(TagsAfter(FIRST.tags, front), end).0, rest);
  }

  lemma EndExpected(tags: Tags, end: Frame)
    requires AudioEnd(end)
    ensures Expect(tags, end).1 == [Audio(end.time, Max(end.track, 1), tags.audioCodec, tags.sound, true, [])]
    ensures Expect(tags, end).0.config == Some(tags.sound)
  {
    AudioWritten(end);
  }

  lemma ExpectUnfold(tags: Tags, frames: seq<Frame>)
    requires frames != []
    ensures ExpectAll(tags, frames) == Expect(tags, frames[0]).1 + ExpectAll(Expect(tags, frames[0]).0, frames[1..])
  {
  }

  /** The metadata tag: its type byte with anything behind it is what must not be cut. */
  lemma MetadataNotClean(tags: Tags, gap: seq<byte>, packet: seq<byte>)
    requires |gap| == 4
    ensures !Clean(Between(tags), gap + TagBytes(Metadata(packet)))
  {
    hide Declared, Clean;
    var f := Metadata(packet);
    var r := gap + TagBytes(f);
    assert r[4] == TYPE_EMPTY && r[5..] == Header(f) + (Payload(f) + Footer(f));
    CleanUnfold(Between(tags), r);
  }
}
