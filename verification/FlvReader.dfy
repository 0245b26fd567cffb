/** FLVReader: tags found in a byte stream that comes in chunks. */
module FlvReader {
  import opened Options
  import opened Bytes
  import opened AudioConfig
  import VideoConfig

  const TYPE_EMPTY := 0
  const TYPE_AUDIO := 8
  const TYPE_VIDEO := 9
  const TYPE_DATA := 0x12

  const CODEC_H264 := 7
  const CODEC_HEVC := 12
  const CODEC_AAC := 10
  const CODEC_MP3 := 2
  const CODEC_MP38K := 14

  const FRAME_KEY := 1
  const FRAME_CONFIG := 7

  /** What the source is given. */
  datatype Media =
    | Video(time: UInt32, track: byte, codec: byte, frame: byte, offset: UInt16, content: seq<byte>)
    | Audio(time: UInt32, track: byte, codec: byte, sound: Sound, isConfig: bool, content: seq<byte>)
    | Properties(track: byte, content: seq<byte>)
    | Data(track: byte, content: seq<byte>)

  /** Tag fields kept from one media to the next; an empty tag leaves them as they are.
      Once `config` is set it is what any sound is said to be. */
  datatype Tags = Tags(codec: byte, frame: byte, offset: UInt16,
                       audioCodec: byte, isConfig: bool, sound: Sound, config: Option<Sound>)

  /** A reader between two calls: `size` counts what is to skip before a type byte
      while `kind` is 0, and else what the tag still takes once its length is known. */
  datatype State = State(begin: bool, size: UInt32, kind: byte, tags: Tags)

  const FIRST := State(true, 0, TYPE_EMPTY, Tags(0, 0, 0, 0, false, Sound(0, 0), None))

  // ----- one tag -----------------------------------------------------------------------

  /** 1 is the default track. */
  function Track(track: byte): byte
  {
    if track != 0 then track else 1
  }

  function TagTime(body: seq<byte>): UInt32
  {
    U24(body) + U8(Drop(body, 3)) * 0x100_0000
  }

  /** The stream id, cut to a byte. */
  function TagTrack(body: seq<byte>): byte
  {
    U24(Drop(body, 4)) % 0x100
  }

  predicate HasConfig(codec: byte)
  {
    codec == CODEC_H264 || codec == CODEC_HEVC
  }

  /** ReadMediaHeader for video: the new fields and the header's size. */
  function VideoHeader(tags: Tags, content: seq<byte>): (Tags, nat)
  {
    if content == [] then (tags, 0)
    else
      var codec := content[0] % 0x10;
      var frame := content[0] / 0x10;
      if HasConfig(codec) then
        (tags.(codec := codec, frame := if U8(Drop(content, 1)) == 0 then FRAME_CONFIG else frame,
               offset := U24(Drop(content, 2)) % 0x1_0000), 5)
      else (tags.(codec := codec, frame := frame, offset := 0), 1)
  }

  function VideoContent(tags: Tags, content: seq<byte>): seq<byte>
  {
    if tags.frame == FRAME_CONFIG && HasConfig(tags.codec) then
      VideoConfig.ReadRecord(tags.codec == CODEC_HEVC, content)
    else content
  }

  /** The rate that two bits of the codec byte stand for, without its half. */
  function FlashRate(codecs: byte): UInt32
  {
    var k := codecs / 4 % 4;
    if k == 0 then 5512 else if k == 1 then 11025 else if k == 2 then 22050 else 44100
  }

  /** ReadMediaHeader for audio. An audio end keeps the sound there was for a configuration. */
  function AudioHeader(tags: Tags, content: seq<byte>): (Tags, nat)
  {
    if content == [] then (tags.(isConfig := true, config := Some(tags.sound)), 0)
    else
      var codec := content[0] / 0x10;
      if codec == CODEC_AAC then
        var isConfig := |content| > 1 && content[1] == 0;
        var read := if isConfig then ReadConfig(Drop(content, 2)) else None;
        (WithSound(tags.(audioCodec := codec, isConfig := isConfig), if read.Some? then read else tags.config, content[0]),
         Min(2, |content|))
      else
        (WithSound(tags.(audioCodec := if codec == CODEC_MP38K then CODEC_MP3 else codec), tags.config, content[0]), 1)
  }

  function WithSound(tags: Tags, config: Option<Sound>, codecs: byte): Tags
  {
    tags.(config := config, sound := if config.Some? then config.value else Sound(FlashRate(codecs), codecs % 2 + 1))
  }

  const ON_META_DATA: seq<byte> := [0x02, 0x00, 0x0A, 0x6F, 0x6E, 0x4D, 0x65, 0x74, 0x61, 0x44, 0x61, 0x74, 0x61]

  predicate IsMetaData(content: seq<byte>)
  {
    |content| >= 13 && content[..13] == ON_META_DATA
  }

  /** What a whole tag of type `kind` gives; other types give nothing. */
  function Tag(tags: Tags, kind: byte, body: seq<byte>): (Tags, seq<Media>)
  {
    var content := Drop(body, 7);
    var track := TagTrack(body);
    if kind == TYPE_VIDEO then
      var header := VideoHeader(tags, content);
      (header.0, [Video(TagTime(body), Track(track), header.0.codec, header.0.frame, header.0.offset,
                        VideoContent(header.0, Drop(content, header.1)))])
    else if kind == TYPE_AUDIO then
      var header := AudioHeader(tags, content);
      (header.0, [Audio(TagTime(body), Track(track), header.0.audioCodec, header.0.sound, header.0.isConfig,
                        Drop(content, header.1))])
    else if kind == TYPE_DATA then
      (tags, [if IsMetaData(content) then Properties(Track(track), content[13..]) else Data(track, content)])
    else (tags, [])
  }

  // ----- the tags of a stream ----------------------------------------------------------------

  datatype Parsed = Parsed(state: State, media: seq<Media>, rest: seq<byte>)

  function With(media: seq<Media>, p: Parsed): Parsed
  {
    p.(media := media + p.media)
  }

  /** The skip that precedes a type byte, on 32 bits. */
  function Gap(size: UInt32): UInt32
  {
    Wrap32(size - 1)
  }

  /** The main loop. */
  function Loop(s: State, r: seq<byte>): (p: Parsed)
    ensures |p.rest| <= |r|
    decreases |r|, 2
  {
    if r == [] then Parsed(s, [], [])
    else if s.kind == TYPE_EMPTY then
      if |r| < s.size then Parsed(s.(size := s.size - |r|), [], [])
      else Sized(s.(kind := U8(Drop(r, Gap(s.size))), size := 0), Drop(Drop(r, Gap(s.size)), 1))
    else Sized(s, r)
  }

  /** Behind the type byte. */
  function Sized(s: State, r: seq<byte>): (p: Parsed)
    ensures |p.rest| <= |r|
    decreases |r|, 1
  {
    if s.size != 0 then Whole(s, r)
    else if |r| < 3 then Parsed(s, [], r)
    else Whole(s.(size := U24(r) + 7), r[3..])
  }

  /** Nothing of a tag is read before all of it is there. */
  function Whole(s: State, r: seq<byte>): (p: Parsed)
    requires s.size > 0
    ensures |p.rest| <= |r|
    decreases |r|, 0
  {
    if |r| < s.size then Parsed(s, [], r)
    else
      var tag := Tag(s.tags, s.kind, r[..s.size]);
      With(tag.1, Loop(s.(kind := TYPE_EMPTY, size := 5, tags := tag.0), r[s.size..]))
  }

  /** The signature is looked for three bytes at a time. */
  function Sync(s: State, r: seq<byte>): (p: Parsed)
    ensures |p.rest| <= |r|
    decreases |r|
  {
    if |r| < 9 then Parsed(s, [], r)
    else if U24(r) == 0x464C56 then
      var size := U32At(r[5..]);
      Loop(s.(begin := false, size := if size > 9 then size - 4 else 5), r[9..])
    else Sync(s, r[3..])
  }

  function Parse(s: State, r: seq<byte>): (p: Parsed)
    ensures |p.rest| <= |r|
  {
    if !s.begin then Loop(s, r)
    else if s.size == 0 then Sync(s, r)
    else Loop(s.(begin := false), r)
  }

  // ----- the reader object ----------------------------------------------------------------------

  class FLVReader {
    var begin: bool
    var size: UInt32
    var kind: byte
    var tags: Tags
    var media: seq<Media>
    var kept: seq<byte>

    function Current(): State
      reads this
    {
      State(begin, size, kind, tags)
    }

    constructor ()
      ensures Current() == FIRST && media == [] && kept == []
    {
      begin, size, kind, tags := true, 0, TYPE_EMPTY, FIRST.tags;
      media, kept := [], [];
    }

    /** Bytes as they come: what the last parse kept is seen again in front of them. */
    method Receive(chunk: seq<byte>)
      modifies this
      ensures var p := Parse(old(Current()), old(kept) + chunk);
        Current() == p.state && media == old(media) + p.media && kept == p.rest
    {
      hide Sync, Loop;
      kept := ParseBuffer(kept + chunk);
    }

    method ParseBuffer(buffer: seq<byte>) returns (rest: seq<byte>)
      modifies this
      ensures var p := Parse(old(Current()), buffer);
        Current() == p.state && media == old(media) + p.media && rest == p.rest
      ensures kept == old(kept)
    {
      hide Loop;
      var r := buffer;
      if begin {
        if size == 0 {
          while true
            invariant begin && size == 0 && Sync(Current(), r) == Sync(old(Current()), buffer)
            invariant media == old(media) && kept == old(kept) && Current() == old(Current())
            decreases |r|
          {
            if |r| < 9 {
              assert media + [] == media;
              return r;
            }
            if U24(r) == 0x464C56 {
              break;
            }
            r := r[3..];
          }
          size := U32At(r[5..]);
          r := r[9..];
          size := if size > 9 then size - 4 else 5;
        }
        begin := false;
      }
      rest := ReadTags(r);
    }

    method ReadTags(buffer: seq<byte>) returns (rest: seq<byte>)
      modifies this
      ensures var p := Loop(old(Current()), buffer);
        Current() == p.state && media == old(media) + p.media && rest == p.rest
      ensures kept == old(kept)
    {
      hide Loop;
      var r := buffer;
      ghost var total := Loop(Current(), buffer);
      WithNothing(total);
      ghost var given: seq<Media> := [];
      while r != []
        invariant With(given, Loop(Current(), r)) == total
        invariant media == old(media) + given && kept == old(kept)
        decreases |r|
      {
        var done, left, found := ReadTag(r);
        if done {
          assert given + [] == given;
          return left;
        }
        WithTwice(given, found, Loop(Current(), left));
        given := given + found;
        r := left;
      }
      LoopNothing(Current());
      assert given + [] == given;
      return [];
    }

    /** One turn of the loop: as far as the end of a tag, or `done` for want of bytes. */
    method ReadTag(buffer: seq<byte>) returns (done: bool, rest: seq<byte>, ghost found: seq<Media>)
      requires buffer != []
      modifies `size, `kind, `tags, `media
      ensures |rest| <= |buffer| && media == old(media) + found
      ensures done ==> Loop(old(Current()), buffer) == Parsed(Current(), [], rest) && found == []
      ensures !done ==> |rest| < |buffer| && Loop(old(Current()), buffer) == With(found, Loop(Current(), rest))
    {
      hide Tag, Loop, Sized, Whole, Gap;
      var r := buffer;
      found := [];
      assert media + [] == media;
      LoopUnfold(Current(), r);
      if kind == TYPE_EMPTY {
        if |r| < size {
          size := size - |r|;
          return true, [], [];
        }
        r := Drop(r, Gap(size));
        kind := U8(r);
        r := Drop(r, 1);
        size := 0;
      }
      SizedUnfold(Current(), r);
      if size == 0 {
        if |r| < 3 {
          return true, r, [];
        }
        size := U24(r) + 7;
        r := r[3..];
      }
      WholeUnfold(Current(), r);
      if |r| < size {
        return true, r, [];
      }
      var tag := Tag(tags, kind, r[..size]);
      tags := tag.0;
      media := media + tag.1;
      found := tag.1;
      rest := r[size..];
      kind, size := TYPE_EMPTY, 5;
      done := false;
    }
  }

  lemma WithNothing(p: Parsed)
    ensures With([], p) == p
  {
    assert [] + p.media == p.media;
  }

  lemma WithTwice(a: seq<Media>, b: seq<Media>, p: Parsed)
    ensures With(a, With(b, p)) == With(a + b, p)
  {
    assert a + (b + p.media) == a + b + p.media;
  }

  lemma LoopNothing(s: State)
    ensures Loop(s, []) == Parsed(s, [], [])
  {
  }

  lemma LoopUnfold(s: State, r: seq<byte>)
    requires r != []
    ensures s.kind == TYPE_EMPTY && |r| < s.size ==> Loop(s, r) == Parsed(s.(size := s.size - |r|), [], [])
    ensures s.kind == TYPE_EMPTY && |r| >= s.size ==>
      Loop(s, r) == Sized(s.(kind := U8(Drop(r, Gap(s.size))), size := 0), Drop(Drop(r, Gap(s.size)), 1))
    ensures s.kind != TYPE_EMPTY ==> Loop(s, r) == Sized(s, r)
  {
    hide Sized;
  }

  lemma SizedUnfold(s: State, r: seq<byte>)
    ensures s.size != 0 ==> Sized(s, r) == Whole(s, r)
    ensures s.size == 0 ==>
      Sized(s, r) == if |r| < 3 then Parsed(s, [], r) else Whole(s.(size := U24(r) + 7), r[3..])
  {
    hide Whole;
  }

  lemma WholeUnfold(s: State, r: seq<byte>)
    requires s.size > 0
    ensures Whole(s, r) ==
      if |r| < s.size then Parsed(s, [], r)
      else With(Tag(s.tags, s.kind, r[..s.size]).1,
                Loop(s.(kind := TYPE_EMPTY, size := 5, tags := Tag(s.tags, s.kind, r[..s.size]).0), r[s.size..]))
  {
    hide Tag, Loop;
  }
}
