/** FLVWriter: medias as FLV tags, and what FLVReader makes of them. */
module FlvWriter {
  import opened Bytes
  import opened FlvReader
  import opened FlvChunks
  import opened VideoConfig

  /** One call of the writer. */
  datatype Frame =
    | VideoFrame(track: byte, time: UInt32, codec: byte, frame: byte, offset: UInt16, packet: seq<byte>)
    | AudioFrame(track: byte, time: UInt32, codec: byte, rate: UInt32, channels: byte, isConfig: bool, packet: seq<byte>)
    | DataFrame(track: byte, packet: seq<byte>)
    | Metadata(packet: seq<byte>)

  const CODEC_NELLYMOSER_16K := 4
  const CODEC_NELLYMOSER := 6

  /** ToCodecs for video; a configuration travels as a key frame. */
  function VideoCodecs(codec: byte, frame: byte): byte
    requires codec < 16 && frame < 16
  {
    (if frame == FRAME_CONFIG then FRAME_KEY else frame) * 16 + codec
  }

  function Stereo(codec: byte, channels: byte): byte
  {
    if codec == CODEC_AAC then 1
    else if CODEC_NELLYMOSER_16K <= codec <= CODEC_NELLYMOSER then 0
    else if channels == 1 then 0
    else 1
  }

  /** ToCodecs for audio: 16 bits always, the rate rounded down. */
  function AudioCodecs(codec: byte, rate: UInt32, channels: byte): byte
    requires codec < 16
  {
    var low := Stereo(codec, channels) + 2;
    if codec == CODEC_AAC then low + 12 + codec * 16
    else if codec == CODEC_MP3 && rate == 8000 then low + CODEC_MP38K * 16
    else low + (if rate >= 44100 then 12 else if rate >= 22050 then 8 else if rate >= 11025 then 4 else 0) + codec * 16
  }

  /** Codec and frame fields are four bits wide. */
  predicate Fields(f: Frame)
  {
    match f
    case VideoFrame(_, _, codec, frame, _, _) => codec < 16 && frame < 16
    case AudioFrame(_, _, codec, _, _, _, _) => codec < 16 && codec != CODEC_MP38K
    case _ => true
  }

  // ----- what write() makes of a call ----------------------------------------------------

  function Kind(f: Frame): byte
  {
    match f
    case VideoFrame(_, _, _, _, _, _) => TYPE_VIDEO
    case AudioFrame(_, _, _, _, _, _, _) => TYPE_AUDIO
    case DataFrame(_, _) => TYPE_DATA
    case Metadata(_) => TYPE_EMPTY
  }

  predicate IsConfig(f: Frame)
  {
    f.VideoFrame? && f.frame == FRAME_CONFIG && HasConfig(f.codec)
  }

  predicate AudioEnd(f: Frame)
  {
    f.AudioFrame? && f.isConfig && f.packet == []
  }

  function SetsOf(f: Frame): Sets
    requires f.VideoFrame?
  {
    Collect(f.codec == CODEC_HEVC, f.packet, NO_SETS)
  }

  /** A configuration without its parameter sets is not written. */
  predicate Written(f: Frame)
  {
    IsConfig(f) ==> Complete(f.codec == CODEC_HEVC, SetsOf(f))
  }

  /** The size announced, before anything is written. */
  function Declared(f: Frame): nat
  {
    match f
    case VideoFrame(_, _, codec, _, _, packet) =>
      if IsConfig(f) then
        var sets := SetsOf(f);
        5 + |sets.vps| + |sets.sps| + |sets.pps| + if codec == CODEC_H264 then 11 else 38
      else if HasConfig(codec) then |packet| + 5
      else |packet| + 1
    case AudioFrame(_, _, codec, _, _, _, packet) =>
      if AudioEnd(f) then 0 else if codec == CODEC_AAC then |packet| + 2 else |packet| + 1
    case _ => |f.packet|
  }

  /** Codec bytes, none if they are 0, and the AVC or AAC bytes behind them. */
  function Prefix(f: Frame): seq<byte>
    requires Fields(f)
  {
    match f
    case VideoFrame(_, _, codec, frame, offset, _) =>
      (if VideoCodecs(codec, frame) != 0 then [VideoCodecs(codec, frame)] else [])
      + if HasConfig(codec) then [if frame == FRAME_CONFIG then 0 else 1] + Be24(offset) else []
    case AudioFrame(_, _, codec, rate, channels, isConfig, _) =>
      if AudioEnd(f) then []
      else [AudioCodecs(codec, rate, channels)] + if codec == CODEC_AAC then [if isConfig then 0 else 1] else []
    case _ => []
  }

  function Content(f: Frame): seq<byte>
  {
    if IsConfig(f) then Record(f.codec == CODEC_HEVC, SetsOf(f)) else f.packet
  }

  function Payload(f: Frame): seq<byte>
    requires Fields(f)
  {
    Prefix(f) + Content(f)
  }

  /** What is counted is what follows the header, but for a raw video frame of no
      kind: its codec byte is 0 and left out. */
  lemma DeclaredIs(f: Frame)
    requires Fields(f)
    ensures |Payload(f)| == Declared(f) <==> !(f.VideoFrame? && f.codec == 0 && f.frame == 0)
  {
    hide Collect, AvcRecord, HevcRecord;
    if f.VideoFrame? && IsConfig(f) && f.codec == CODEC_H264 {
      CollectTyped(false, f.packet, NO_SETS);
    }
  }

  function Time(f: Frame): UInt32
  {
    if f.VideoFrame? || f.AudioFrame? then f.time else 0
  }

  function TrackOf(f: Frame): byte
  {
    if f.Metadata? then 0 else f.track
  }

  /** The 10 bytes between a tag's type and its payload. */
  function Header(f: Frame): (s: seq<byte>)
    ensures |s| == 10
  {
    Be24(Declared(f)) + (Be24(Time(f)) + [Time(f) / 0x100_0000] + Be24(TrackOf(f)))
  }

  /** The size read in the header is that of what follows it, if it fits 24 bits and
      the frame is no raw video frame of no kind. */
  lemma DeclaredExactly(f: Frame)
    requires Fields(f)
    ensures U24(Header(f)) == |Payload(f)|
      <==> |Payload(f)| < 0x100_0000 && !(f.VideoFrame? && f.codec == 0 && f.frame == 0)
  {
    hide Payload, Declared, Be24;
    DeclaredIs(f);
    RawUncounted(f);
    var rest := Be24(Time(f)) + [Time(f) / 0x100_0000] + Be24(TrackOf(f));
    ReadBe24(Declared(f) % 0x100_0000, rest);
    Be24Wraps(Declared(f));
  }

  lemma RawUncounted(f: Frame)
    requires Fields(f)
    ensures f.VideoFrame? && f.codec == 0 && f.frame == 0 ==> Declared(f) == |Payload(f)| + 1
  {
  }

  lemma Be24Wraps(v: nat)
    ensures Be24(v % 0x100_0000) == Be24(v)
  {
    var q, r := v / 0x100_0000, v % 0x100_0000;
    assert v == 65536 * (256 * q) + r && v == 256 * (65536 * q) + r;
    Shifted(r, 256 * q, 65536 * q);
    ModShifted(r / 65536, q);
    ModShifted(r / 256, 256 * q);
    ModShifted(r, 65536 * q);
  }

  lemma Shifted(r: int, a: int, b: int)
    ensures (65536 * a + r) / 65536 == a + r / 65536
    ensures (256 * b + r) / 256 == b + r / 256
  {
  }

  lemma ModShifted(r: int, q: int)
    ensures (256 * q + r) % 256 == r % 256
  {
  }

  function Footer(f: Frame): (s: seq<byte>)
    ensures |s| == 4
  {
    Be32(11 + Declared(f))
  }

  function TagBytes(f: Frame): seq<byte>
    requires Fields(f)
  {
    if Written(f) then [Kind(f)] + (Header(f) + (Payload(f) + Footer(f))) else []
  }

  const SIGNATURE: seq<byte> := [0x46, 0x4C, 0x56, 0x01, 0x05, 0, 0, 0, 9]

  function TagsOf(frames: seq<Frame>): seq<byte>
    requires forall f :: f in frames ==> Fields(f)
  {
    if frames == [] then [] else TagBytes(frames[0]) + TagsOf(frames[1..])
  }

  /** beginMedia, then one call after the other. */
  function Stream(frames: seq<Frame>): seq<byte>
    requires forall f :: f in frames ==> Fields(f)
  {
    SIGNATURE + ([0, 0, 0, 0] + TagsOf(frames))
  }

  /** write(): everything handed to onWrite, in order. */
  method Write(f: Frame, writer: BinaryWriter)
    requires Fields(f)
    modifies writer
    ensures writer.data == old(writer.data) + TagBytes(f)
  {
    hide Collect, Record, AvcRecord, HevcRecord;
    ghost var before := writer.data;
    var size, codecs, isAvc := |f.packet|, 0, false;
    var sets := NO_SETS;
    match f {
      case VideoFrame(_, _, codec, frame, _, _) =>
      codecs := VideoCodecs(codec, frame);
      size := size + 1;
      isAvc := HasConfig(codec);
      if isAvc {
        size := size + 4;
        if frame == FRAME_CONFIG {
          size := size - |f.packet|;
          var ok;
          ok, sets := ParseVideoConfig(codec == CODEC_HEVC, f.packet);
          if !ok {
            assert TagBytes(f) == [];
            assert writer.data == before + TagBytes(f);
            return;
          }
          size := size + |sets.vps| + |sets.sps| + |sets.pps| + if codec == CODEC_H264 then 11 else 38;
        }
      }
      case AudioFrame(_, _, codec, rate, channels, isConfig, packet) =>
      codecs := AudioCodecs(codec, rate, channels);
      if packet != [] || !isConfig {
        size := size + 1;
      } else {
        codecs := 0;
      }
      isAvc := codecs / 16 == CODEC_AAC;
      if isAvc {
        size := size + 1;
      }
      case _ =>
    }
    assert size == Declared(f) by {
      AudioKind(f);
    }
    WriteRest(f, writer, size, codecs, isAvc, sets);
  }

  lemma AudioKind(f: Frame)
    requires Fields(f)
    ensures f.AudioFrame? ==> AudioCodecs(f.codec, f.rate, f.channels) != 0
    ensures f.AudioFrame? ==> (AudioCodecs(f.codec, f.rate, f.channels) / 16 == CODEC_AAC <==> f.codec == CODEC_AAC)
  {
  }

  /** The header, the payload and the footer. */
  method WriteRest(f: Frame, writer: BinaryWriter, size: nat, codecs: byte, isAvc: bool, sets: Sets)
    requires Fields(f) && Written(f) && size == Declared(f)
    requires f.VideoFrame? ==> codecs == VideoCodecs(f.codec, f.frame) && isAvc == HasConfig(f.codec)
    requires f.AudioFrame? ==> codecs == (if AudioEnd(f) then 0 else AudioCodecs(f.codec, f.rate, f.channels))
    requires f.AudioFrame? ==> isAvc == (!AudioEnd(f) && f.codec == CODEC_AAC)
    requires f.DataFrame? || f.Metadata? ==> codecs == 0 && !isAvc
    requires if IsConfig(f) then sets == SetsOf(f) else sets == NO_SETS
    modifies writer
    ensures writer.data == old(writer.data) + TagBytes(f)
  {
    hide Collect, Record, Written, Header, Prefix, Content, Kind, VideoCodecs, AudioCodecs, Declared, Be32, IsConfig;
    writer.Write([Kind(f)]);
    writer.Write(Header(f));
    WritePrefix(f, writer, codecs, isAvc);
    WriteContent(f, writer, sets);
    writer.Write(Be32(11 + size));
    Parts(old(writer.data), [Kind(f)], Header(f), Prefix(f), Content(f), Footer(f));
  }

  method WritePrefix(f: Frame, writer: BinaryWriter, codecs: byte, isAvc: bool)
    requires Fields(f)
    requires f.VideoFrame? ==> codecs == VideoCodecs(f.codec, f.frame) && isAvc == HasConfig(f.codec)
    requires f.AudioFrame? ==> codecs == (if AudioEnd(f) then 0 else AudioCodecs(f.codec, f.rate, f.channels))
    requires f.AudioFrame? ==> isAvc == (!AudioEnd(f) && f.codec == CODEC_AAC)
    requires f.DataFrame? || f.Metadata? ==> codecs == 0 && !isAvc
    modifies writer
    ensures writer.data == old(writer.data) + Prefix(f)
  {
    hide Be24, VideoCodecs, AudioCodecs;
    AudioKind(f);
    var prefix: seq<byte> := if codecs != 0 then [codecs] else [];
    if isAvc {
      prefix := prefix + [if (f.VideoFrame? && f.frame == FRAME_CONFIG) || (f.AudioFrame? && f.isConfig) then 0 else 1];
      if f.VideoFrame? {
        prefix := prefix + Be24(f.offset);
      }
    }
    assert prefix == Prefix(f);
    writer.Write(prefix);
  }

  method WriteContent(f: Frame, writer: BinaryWriter, sets: Sets)
    requires Written(f) && (if IsConfig(f) then sets == SetsOf(f) else sets == NO_SETS)
    modifies writer
    ensures writer.data == old(writer.data) + Content(f)
  {
    hide Written, Record, HevcRecord, AvcRecord, SetsOf, IsConfig;
    if IsConfig(f) {
      SetsChosen(f);
    }
    if sets.sps == [] {
      writer.Write(f.packet);
    } else if sets.vps != [] {
      writer.Write(HevcRecord(sets.vps, sets.sps, sets.pps));
    } else {
      writer.Write(AvcRecord(sets.sps, sets.pps));
    }
  }

  lemma SetsChosen(f: Frame)
    requires Written(f) && IsConfig(f)
    ensures SetsOf(f).sps != []
    ensures Content(f) == if SetsOf(f).vps != [] then HevcRecord(SetsOf(f).vps, SetsOf(f).sps, SetsOf(f).pps)
                          else AvcRecord(SetsOf(f).sps, SetsOf(f).pps)
  {
    hide Collect, AvcRecord, HevcRecord;
    CollectTyped(f.codec == CODEC_HEVC, f.packet, NO_SETS);
  }

  lemma Parts(before: seq<byte>, a: seq<byte>, b: seq<byte>, c: seq<byte>, d: seq<byte>, e: seq<byte>)
    ensures before + a + b + c + d + e == before + (a + (b + (c + d + e)))
  {
  }
}
