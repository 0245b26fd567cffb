/** The tags FLVWriter writes, as the file format lays them out. */
module FlvFormat {
  import opened Bytes
  import opened FlvReader
  import opened FlvChunks
  import opened FlvWriter
  import opened VideoConfig

  /** The first byte of sound (section E.4.2.1 of the FLV specification, version 10.1): the
      format in four bits, with its own number for MP3 at 8000 Hz, then two bits of rate,
      16-bit samples, and a bit for stereo. Of AAC the second byte says what follows. */
  lemma SoundLayout(f: Frame)
    requires Fields(f) && f.AudioFrame? && !AudioEnd(f)
    ensures var p := Payload(f);
      && p != [] && p[0] / 0x10 == (if f.codec == 2 && f.rate == 8000 then 14 else f.codec) && p[0] / 2 % 2 == 1
      && p[1..] == (if f.codec == 10 then [if f.isConfig then 0 else 1] else []) + f.packet
  {
    var c := AudioCodecs(f.codec, f.rate, f.channels);
    assert Payload(f)[0] == c;
    assert c / 0x10 == (if f.codec == 2 && f.rate == 8000 then 14 else f.codec) && c / 2 % 2 == 1;
  }

  /** The first byte of video (section E.4.3.1): the kind of frame, then the codec; behind it,
      for AVC and what is written like it, what follows and a composition time of three bytes. */
  lemma VideoLayout(f: Frame)
    requires Fields(f) && f.VideoFrame? && !(f.codec == 0 && f.frame == 0)
    ensures var p := Payload(f);
      && p != [] && p[0] / 0x10 == (if f.frame == 7 then 1 else f.frame) && p[0] % 0x10 == f.codec
      && (f.codec != 7 && f.codec != 12 ==> p[1..] == f.packet)
      && (f.codec == 7 || f.codec == 12 ==>
          |p| >= 5 && p[1] == (if f.frame == 7 then 0 else 1) && U24(p[2..]) == f.offset && p[5..] == Content(f))
  {
    hide Collect, Record;
    var c := VideoCodecs(f.codec, f.frame);
    assert c / 0x10 == (if f.frame == 7 then 1 else f.frame) && c % 0x10 == f.codec && c != 0;
    assert Payload(f)[0] == c;
    if HasConfig(f.codec) {
      var flag: byte := if f.frame == FRAME_CONFIG then 0 else 1;
      assert Payload(f) == [c, flag] + (Be24(f.offset) + Content(f));
      assert Payload(f)[2..] == Be24(f.offset) + Content(f);
      ReadBe24(f.offset, Content(f));
    } else {
      assert [c] + [] == [c];
    }
  }

  /** The ten bytes behind a tag's type (section E.4.1): its size, its time with the highest
      byte last, and its stream, which stands for the track. Data has the time 0, and metadata
      the track 0 as well. */
  lemma HeaderLayout(f: Frame)
    requires Fields(f) && !(f.VideoFrame? && f.codec == 0 && f.frame == 0) && |Payload(f)| < 0x100_0000
    ensures var h := Header(f);
      && U24(h) == |Payload(f)|
      && U24(h[3..]) + h[6] as int * 0x100_0000 == (if f.VideoFrame? || f.AudioFrame? then f.time else 0)
      && h[7..] == [0, 0, if f.Metadata? then 0 else f.track]
  {
    hide Payload, Declared, U24;
    DeclaredExactly(f);
    var t := Time(f);
    assert Header(f)[3..] == Be24(t) + ([t / 0x100_0000] + Be24(TrackOf(f)));
    TimeLow(t, [t / 0x100_0000] + Be24(TrackOf(f)));
    assert Header(f)[6] == t / 0x100_0000;
    assert Header(f)[7..] == Be24(TrackOf(f)) == [0, 0, TrackOf(f)];
  }

  lemma TimeLow(t: UInt32, rest: seq<byte>)
    ensures U24(Be24(t) + rest) == t % 0x100_0000
  {
    Be24Wraps(t);
    ReadBe24(t % 0x100_0000, rest);
  }

  // ----- the sizes behind the tags -----------------------------------------------------------------

  /** A tag without the size behind it. */
  function TagAlone(f: Frame): seq<byte>
    requires Fields(f)
  {
    [Kind(f)] + (Header(f) + Payload(f))
  }

  function TagsAlone(frames: seq<Frame>): seq<seq<byte>>
    requires forall i :: 0 <= i < |frames| ==> Fields(frames[i])
  {
    if frames == [] then []
    else
      var f := frames[|frames| - 1];
      TagsAlone(frames[..|frames| - 1]) + if Written(f) then [TagAlone(f)] else []
  }

  /** The tags found from the end of a file on, each by the size behind it (section E.3), up
      to the header of nine bytes and the size 0. */
  function TagsBack(s: seq<byte>): seq<seq<byte>>
    decreases |s|
  {
    if |s| < 17 then []
    else
      var size := U32At(s[|s| - 4..]);
      if size == 0 || size + 17 > |s| then [] else TagsBack(s[..|s| - 4 - size]) + [s[|s| - 4 - size..|s| - 4]]
  }

  predicate Sized(f: Frame)
  {
    Fields(f) && !(f.VideoFrame? && f.codec == 0 && f.frame == 0) && 11 + |Payload(f)| < U32
  }

  lemma {:induction false} TagsSnoc(frames: seq<Frame>, f: Frame)
    requires (forall g :: g in frames ==> Fields(g)) && Fields(f)
    ensures TagsOf(frames + [f]) == TagsOf(frames) + TagBytes(f)
  {
    hide TagBytes, Fields;
    if frames == [] {
      assert [f][1..] == [];
      assert TagBytes(f) + [] == TagBytes(f);
    } else {
      assert (frames + [f])[1..] == frames[1..] + [f];
      TagsSnoc(frames[1..], f);
    }
  }

  lemma Ends(s: seq<byte>, tag: seq<byte>, size: seq<byte>)
    requires |size| == 4
    ensures var all := s + (tag + size);
      all[|all| - 4..] == size && all[..|all| - 4 - |tag|] == s && all[|all| - 4 - |tag|..|all| - 4] == tag
  {
  }

  lemma BackUnfold(s: seq<byte>, size: nat)
    requires |s| >= 17 && U32At(s[|s| - 4..]) == size > 0 && size + 17 <= |s|
    ensures TagsBack(s) == TagsBack(s[..|s| - 4 - size]) + [s[|s| - 4 - size..|s| - 4]]
  {
    hide U32At;
  }

  lemma BackOne(s: seq<byte>, tag: seq<byte>, size: seq<byte>)
    requires |s| >= 13 && tag != [] && |size| == 4 && U32At(size) == |tag|
    ensures TagsBack(s + (tag + size)) == TagsBack(s) + [tag]
  {
    hide U32At, TagsBack;
    Ends(s, tag, size);
    BackUnfold(s + (tag + size), |tag|);
  }

  lemma TagParts(f: Frame)
    requires Fields(f) && Written(f)
    ensures TagBytes(f) == TagAlone(f) + Footer(f) && |TagAlone(f)| == 11 + |Payload(f)|
  {
    hide Payload, Declared, Header, Kind, Written, Footer;
    assert [Kind(f)] + (Header(f) + (Payload(f) + Footer(f))) == [Kind(f)] + (Header(f) + Payload(f)) + Footer(f);
  }

  lemma OneBack(s: seq<byte>, f: Frame)
    requires Sized(f) && Written(f) && |s| >= 13
    ensures TagsBack(s + TagBytes(f)) == TagsBack(s) + [TagAlone(f)]
  {
    hide Payload, Declared, TagAlone, TagBytes, Written, Be32, Fields, U32At;
    DeclaredIs(f);
    TagParts(f);
    ReadBe32(11 + |Payload(f)|, []);
    assert Footer(f) + [] == Footer(f);
    BackOne(s, TagAlone(f), Footer(f));
  }

  /** The sizes behind the tags lead back through the whole file, tag by tag. */
  lemma {:induction false} TagsFoundBack(frames: seq<Frame>)
    requires forall i :: 0 <= i < |frames| ==> Fields(frames[i]) && Sized(frames[i])
    ensures TagsBack(Stream(frames)) == TagsAlone(frames)
  {
    hide TagBytes, Fields, Sized, Written, TagAlone, TagsBack;
    if frames == [] {
      NoTags();
    } else {
      var init, f := frames[..|frames| - 1], frames[|frames| - 1];
      assert frames == init + [f];
      TagsSnoc(init, f);
      TagsFoundBack(init);
      StreamSnoc(init, f);
      if Written(f) {
        StreamSize(init);
        OneBack(Stream(init), f);
      } else {
        Unwritten(f);
        assert Stream(init) + [] == Stream(init);
      }
    }
  }

  lemma NoTags()
    ensures TagsBack(Stream([])) == [] && TagsAlone([]) == []
  {
  }

  lemma StreamSnoc(frames: seq<Frame>, f: Frame)
    requires (forall g :: g in frames ==> Fields(g)) && Fields(f)
    requires TagsOf(frames + [f]) == TagsOf(frames) + TagBytes(f)
    ensures Stream(frames + [f]) == Stream(frames) + TagBytes(f)
  {
    hide TagBytes, Fields, TagsOf;
  }

  lemma StreamSize(frames: seq<Frame>)
    requires forall g :: g in frames ==> Fields(g)
    ensures |Stream(frames)| >= 13
  {
    hide TagsOf;
  }

  lemma Unwritten(f: Frame)
    requires Fields(f) && !Written(f)
    ensures TagBytes(f) == []
  {
  }
}
