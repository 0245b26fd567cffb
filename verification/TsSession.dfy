/** Whole sessions: any frames on any tracks, written by TSWriter and read by
    TSReader in any chunks. */
module TsSession {
  import opened Bytes
  import opened TsWriter
  import opened TsPackets
  import opened TsReading
  import opened TsRoundTrip
  import TsReader

  /** One writeVideo or writeAudio call, with the elementary stream its track
      writer makes of it, in the pieces that writer hands over. */
  datatype Frame = Frame(video: bool, track: byte, codec: Codec, time: UInt32, compositionOffset: UInt16, key: bool,
                         chunks: seq<seq<byte>>)

  /** The frame's time gives a stamp that is written. */
  predicate ValidFrame(f: Frame)
  {
    Writable(f) && (f.time + PCR_OFFSET) % 0x8000_0000 != 0
  }

  /** What the writer demands of its callers: a stream that fits 32 bits, and video
      pids below audio's. */
  predicate Writable(f: Frame)
  {
    |Concat(f.chunks)| < U32 && (f.video ==> FIRST_VIDEO_PID + TrackId(f.track) < FIRST_AUDIO_PID)
  }

  function Pid(f: Frame): int
  {
    TrackId(f.track) + if f.video then FIRST_VIDEO_PID else FIRST_AUDIO_PID
  }

  function Register(m: Mux, f: Frame): (bool, Mux)
  {
    if f.video then RegisterVideo(m, TrackId(f.track), f.codec) else RegisterAudio(m, TrackId(f.track), f.codec)
  }

  function Info(f: Frame): EsInfo
    requires |Concat(f.chunks)| < U32
  {
    EsInfo(Pid(f), f.time, if f.video then f.compositionOffset else 0, if f.video then f.key else true, |Concat(f.chunks)|)
  }

  // ----- registering a track keeps the program valid --------------------------------

  lemma {:induction false} PutTrackHolds(s: seq<Elem>, id: byte, kind: byte)
    ensures Elem(id, kind) in PutTrack(s, id, kind)
    ensures forall e :: e in PutTrack(s, id, kind) ==> e in s || e == Elem(id, kind)
  {
    if s != [] && id > s[0].id {
      PutTrackHolds(s[1..], id, kind);
    }
  }

  lemma {:induction false} PutTrackIncreasing(s: seq<Elem>, id: byte, kind: byte)
    requires Increasing(s)
    ensures Increasing(PutTrack(s, id, kind))
    decreases |s|
  {
    if s != [] && id > s[0].id {
      var rest := PutTrack(s[1..], id, kind);
      PutTrackIncreasing(s[1..], id, kind);
      PutTrackHolds(s[1..], id, kind);
      assert PutTrack(s, id, kind) == [s[0]] + rest;
      hide PutTrack;
      forall i | 0 <= i < |rest| ensures s[0].id < rest[i].id {
        if rest[i] in s[1..] {
          var j :| 0 <= j < |s[1..]| && s[1..][j] == rest[i];
          assert s[0].id < s[j + 1].id;
        }
      }
    }
  }

  /** A track already there is replaced, not added. */
  lemma {:induction false} PutTrackReplaces(s: seq<Elem>, id: byte, kind: byte)
    requires Increasing(s) && HasTrack(s, id)
    ensures |PutTrack(s, id, kind)| == |s|
    decreases |s|
  {
    var i :| 0 <= i < |s| && s[i].id == id;
    if i > 0 {
      assert s[0].id < s[i].id;
      assert s[1..][i - 1].id == id;
      PutTrackReplaces(s[1..], id, kind);
    }
  }

  lemma RegisterValid(m: Mux, f: Frame)
    requires Valid(m) && Writable(f) && Register(m, f).0
    ensures Valid(Register(m, f).1)
    ensures exists i :: 0 <= i < |TrackStreams(Register(m, f).1)| && TrackStreams(Register(m, f).1)[i].0 == Pid(f)
  {
    hide Increasing, PutTrack, KindOf, HasTrack, Streams;
    var m' := Register(m, f).1;
    var id := TrackId(f.track);
    var videoKind: byte, audioKind: byte := if f.codec == HEVC then 0x24 else 0x1B, if f.codec == AAC then 0x0F else 0x03;
    PutTrackIncreasing(m.videos, id, videoKind);
    PutTrackHolds(m.videos, id, videoKind);
    PutTrackIncreasing(m.audios, id, audioKind);
    PutTrackHolds(m.audios, id, audioKind);
    if HasTrack(m.audios, id) {
      PutTrackReplaces(m.audios, id, audioKind);
    }
    assert Valid(m');
    TrackPlaced(m, f);
  }

  lemma HasPut(s: seq<Elem>, id: byte, kind: byte)
    ensures HasTrack(PutTrack(s, id, kind), id)
  {
    hide PutTrack;
    PutTrackHolds(s, id, kind);
    var r := PutTrack(s, id, kind);
    var i :| 0 <= i < |r| && r[i] == Elem(id, kind);
    assert r[i].id == id;
  }

  lemma RegisteredHas(m: Mux, f: Frame)
    requires Valid(m) && Register(m, f).0
    ensures HasTrack(if f.video then Register(m, f).1.videos else Register(m, f).1.audios, TrackId(f.track))
  {
    hide HasTrack, PutTrack, KindOf, Increasing;
    HasPut(m.videos, TrackId(f.track), if f.codec == HEVC then 0x24 else 0x1B);
    HasPut(m.audios, TrackId(f.track), if f.codec == AAC then 0x0F else 0x03);
  }

  lemma TrackPlaced(m: Mux, f: Frame)
    requires Valid(m) && Valid(Register(m, f).1) && Register(m, f).0
    ensures exists i :: 0 <= i < |TrackStreams(Register(m, f).1)| && TrackStreams(Register(m, f).1)[i].0 == Pid(f)
  {
    hide Streams, PutTrack, KindOf, Increasing, TsReader.ReaderOf, Valid, Register;
    var m' := Register(m, f).1;
    var id := TrackId(f.track);
    RegisteredHas(m, f);
    if f.video {
      var i :| 0 <= i < |m'.videos| && m'.videos[i].id == id;
      VideoAt(m', i);
      assert TrackStreams(m')[i].0 == Pid(f);
    } else {
      var i :| 0 <= i < |m'.audios| && m'.audios[i].id == id;
      AudioAt(m', i);
      assert TrackStreams(m')[|m'.videos| + i].0 == Pid(f);
    }
  }

  // ----- writing one frame ------------------------------------------------------------

  /** writeVideo or writeAudio: the track, if it can be had, then every piece of the stream. */
  function WriteFrame(w: Writer, f: Frame): (r: (Writer, seq<byte>))
    requires Valid(w.mux) && Writable(f)
    ensures Valid(r.0.mux)
  {
    var track := Register(w.mux, f);
    if !track.0 then (w, [])
    else
      RegisterValid(w.mux, f);
      if Concat(f.chunks) == [] then (w.(mux := track.1), [])
      else EsCalls(w.(mux := track.1), Info(f), f.chunks)
  }

  function WriteRun(w: Writer, frames: seq<Frame>): (r: (Writer, seq<byte>))
    requires Valid(w.mux) && forall f :: f in frames ==> Writable(f)
    ensures Valid(r.0.mux)
    decreases |frames|
  {
    if frames == [] then (w, [])
    else
      var first := WriteFrame(w, frames[0]);
      var others := WriteRun(first.0, frames[1..]);
      (others.0, first.1 + others.1)
  }

  /** The same call on the writer object. */
  method Write(writer: TSWriter, f: Frame) returns (bytes: seq<byte>)
    requires Valid(writer.State()) && Writable(f)
    modifies writer
    ensures writer.Whole() == WriteFrame(old(writer.Whole()), f).0
    ensures bytes == WriteFrame(old(writer.Whole()), f).1
  {
    hide EsCalls, Valid, RegisterVideo, RegisterAudio, Concat;
    var out := new BinaryWriter();
    ghost var w := writer.Whole();
    ghost var m := writer.State();
    var accepted;
    if f.video {
      accepted := writer.EnsureVideo(f.track, f.codec);
    } else {
      accepted := writer.EnsureAudio(f.track, f.codec);
    }
    assert (accepted, writer.State()) == Register(m, f);
    assert writer.Whole() == w.(mux := Register(m, f).1);
    if !accepted {
      Refused(m, f);
      return [];
    }
    RegisterValid(m, f);
    if Concat(f.chunks) == [] {
      return [];
    }
    WriteChunks(writer, out, Info(f), f.chunks);
    bytes := out.data;
    assert [] + EsCalls(w.(mux := Register(m, f).1), Info(f), f.chunks).1
      == EsCalls(w.(mux := Register(m, f).1), Info(f), f.chunks).1;
  }

  lemma Refused(m: Mux, f: Frame)
    requires !Register(m, f).0
    ensures Register(m, f).1 == m
  {
  }

  /** One call of writeES for each piece. */
  method WriteChunks(writer: TSWriter, out: BinaryWriter, e: EsInfo, chunks: seq<seq<byte>>)
    requires Valid(writer.State()) && ValidInfo(e) && e.esSize > 0
    modifies writer, out
    ensures writer.Whole() == EsCalls(old(writer.Whole()), e, chunks).0
    ensures out.data == old(out.data) + EsCalls(old(writer.Whole()), e, chunks).1
  {
    hide Valid, Es;
    ghost var result := EsCalls(writer.Whole(), e, chunks);
    ghost var total := out.data + result.1;
    assert chunks[0..] == chunks;
    for i := 0 to |chunks|
      invariant Valid(writer.State())
      invariant EsCalls(writer.Whole(), e, chunks[i..]).0 == result.0
      invariant out.data + EsCalls(writer.Whole(), e, chunks[i..]).1 == total
    {
      ghost var before, w := out.data, writer.Whole();
      assert chunks[i..][1..] == chunks[i + 1..];
      writer.WriteEs(out, e, chunks[i]);
      Associative(before, Es(w, e, chunks[i]).1, EsCalls(writer.Whole(), e, chunks[i + 1..]).1);
    }
  }

  // ----- a run of frames, packet by packet ------------------------------------------------

  /** Whether the frame adds bytes at all. */
  predicate Sent(m: Mux, f: Frame)
  {
    Register(m, f).0 && Concat(f.chunks) != []
  }

  lemma InfoValid(f: Frame)
    requires Writable(f)
    ensures ValidInfo(Info(f))
  {
  }

  lemma InfoStamped(f: Frame)
    requires ValidFrame(f)
    ensures ValidInfo(Info(f)) && Stamped(Info(f))
  {
    StampedExactly(Info(f));
  }

  function FrameStep(m: Mux, f: Frame): (r: (Mux, seq<Packet188>))
    requires Valid(m) && Writable(f)
    ensures Valid(r.0)
  {
    if !Register(m, f).0 then (m, [])
    else
      RegisterValid(m, f);
      InfoValid(f);
      if Concat(f.chunks) == [] then (Register(m, f).1, [])
      else if Stamped(Info(f)) then FramePackets(Register(m, f).1, Info(f), Concat(f.chunks))
      else UnstampedFrame(Register(m, f).1, Info(f), Concat(f.chunks))
  }

  function RunPackets(m: Mux, frames: seq<Frame>): (r: (Mux, seq<Packet188>))
    requires Valid(m) && forall f :: f in frames ==> Writable(f)
    ensures Valid(r.0)
    decreases |frames|
  {
    if frames == [] then (m, [])
    else
      var first := FrameStep(m, frames[0]);
      var others := RunPackets(first.0, frames[1..]);
      (others.0, first.1 + others.1)
  }

  /** Between frames the writer is idle, and every frame is whole packets. */
  lemma FrameIsPackets(m: Mux, f: Frame)
    requires Valid(m) && ValidFrame(f)
    ensures WriteFrame(Writer(m, 0, 0), f) == (Writer(FrameStep(m, f).0, 0, 0), Flat(FrameStep(m, f).1))
  {
    hide Valid, FramePackets, EsCalls, Register, Concat, Stamped;
    if Sent(m, f) {
      RegisterValid(m, f);
      InfoStamped(f);
      PacketisationExact(Register(m, f).1, Info(f), f.chunks);
    }
  }

  lemma {:induction false} RunIsPackets(m: Mux, frames: seq<Frame>)
    requires Valid(m) && forall f :: f in frames ==> ValidFrame(f) && Writable(f)
    ensures WriteRun(Writer(m, 0, 0), frames) == (Writer(RunPackets(m, frames).0, 0, 0), Flat(RunPackets(m, frames).1))
    decreases |frames|
  {
    hide Valid, FrameStep, WriteFrame;
    if frames != [] {
      FrameIsPackets(m, frames[0]);
      var first := FrameStep(m, frames[0]);
      RunIsPackets(first.0, frames[1..]);
      FlatAppend(first.1, RunPackets(first.0, frames[1..]).1);
    }
  }

  // ----- what the run must deliver -----------------------------------------------------------

  /** The bytes handed over on `pid`, in order, of every frame that was accepted. */
  function SentBytes(m: Mux, frames: seq<Frame>, pid: int): seq<byte>
    requires Valid(m) && forall f :: f in frames ==> Writable(f)
    decreases |frames|
  {
    if frames == [] then []
    else
      var f := frames[0];
      (if Sent(m, f) && Pid(f) == pid then Concat(f.chunks) else [])
      + SentBytes(FrameStep(m, f).0, frames[1..], pid)
  }

  /** The stamps the frame is announced with. */
  function StampsOf(f: Frame): seq<(int, nat, nat)>
  {
    var dts: nat := (f.time + 200) % U32 * 90 % U32;
    [(Pid(f), dts + 90 * if f.video then f.compositionOffset else 0, dts)]
  }

  function SentStamps(m: Mux, frames: seq<Frame>): seq<(int, nat, nat)>
    requires Valid(m) && forall f :: f in frames ==> Writable(f)
    decreases |frames|
  {
    if frames == [] then []
    else
      var f := frames[0];
      (if Sent(m, f) then StampsOf(f) else []) + SentStamps(FrameStep(m, f).0, frames[1..])
  }

  /** Every pid its bytes, every stamp in order, nothing lost. */
  ghost predicate DeliversRun(events: seq<Event>, m: Mux, frames: seq<Frame>)
    requires Valid(m) && forall f :: f in frames ==> Writable(f)
  {
    && Lossless(events)
    && TsRoundTrip.Stamps(events) == SentStamps(m, frames)
    && forall q :: Reads(events, q) == SentBytes(m, frames, q)
  }

  /** A new track asks for new tables; it does not put the reader out of step. */
  lemma RegisterSynced(m: Mux, d: Demux, f: Frame)
    requires Synced(m, d) && Writable(f) && Register(m, f).0
    ensures Synced(Register(m, f).1, d)
  {
    hide Valid, Current, PutTrack, KindOf, HasTrack, Crc, Counter;
    RegisterValid(m, f);
    var m' := Register(m, f).1;
    assert m'.pids == m.pids;
    LinkedSame(m, m', d);
  }

  lemma LinkedSame(m: Mux, m': Mux, d: Demux)
    requires Linked(m, d) && m'.pids == m.pids
    ensures Linked(m', d)
  {
    assert forall q :: Counter(m', q) == Counter(m, q);
  }

  lemma FrameStepRead(m: Mux, d: Demux, f: Frame)
    requires Synced(m, d) && ValidFrame(f)
    ensures Valid(m)
    ensures Step(d, FrameStep(m, f).1, FrameStep(m, f).0, Pid(f), if Sent(m, f) then Concat(f.chunks) else [],
                 if Sent(m, f) then StampsOf(f) else [])
  {
    hide Synced, Valid, Step, FramePackets, Register, Concat, Stamped, Streams;
    SyncedParts(m, d);
    if !Register(m, f).0 {
      NoPackets(d, m, Pid(f));
    } else {
      var m' := Register(m, f).1;
      RegisterValid(m, f);
      RegisterSynced(m, d, f);
      InfoStamped(f);
      if Concat(f.chunks) == [] {
        NoPackets(d, m', Pid(f));
      } else {
        var i :| 0 <= i < |TrackStreams(m')| && TrackStreams(m')[i].0 == Pid(f);
        FrameRead(m', d, Info(f), Concat(f.chunks), i);
      }
    }
  }

  lemma {:induction false} RunRead(m: Mux, d: Demux, frames: seq<Frame>)
    requires Synced(m, d) && forall f :: f in frames ==> ValidFrame(f) && Writable(f)
    ensures Valid(m)
    ensures Synced(RunPackets(m, frames).0, After(d, RunPackets(m, frames).1))
    ensures DeliversRun(TsReader.Packets(d, Tails(RunPackets(m, frames).1)).1, m, frames)
    decreases |frames|
  {
    hide Synced, Valid, FrameStep, TsReader.Packets, Tails, Sent, StampsOf, Pid, ValidFrame, Concat;
    SyncedParts(m, d);
    if frames == [] {
      NoPackets(d, m, 0);
      TsReader.PacketsNone(d);
      assert Tails([]) == [];
    } else {
      FrameStepRead(m, d, frames[0]);
      var first := FrameStep(m, frames[0]);
      var d1 := After(d, first.1);
      RunRead(first.0, d1, frames[1..]);
      var rest := RunPackets(first.0, frames[1..]).1;
      TailsAppend(first.1, rest);
      PacketsAppend(d, Tails(first.1), Tails(rest));
      DeliversCons(m, frames, TsReader.Packets(d, Tails(first.1)).1, TsReader.Packets(d1, Tails(rest)).1);
    }
  }

  lemma DeliversCons(m: Mux, frames: seq<Frame>, a: seq<Event>, b: seq<Event>)
    requires Valid(m) && frames != [] && forall f :: f in frames ==> ValidFrame(f) && Writable(f)
    requires Delivers(a, Pid(frames[0]), if Sent(m, frames[0]) then Concat(frames[0].chunks) else [],
                      if Sent(m, frames[0]) then StampsOf(frames[0]) else [])
    requires DeliversRun(b, FrameStep(m, frames[0]).0, frames[1..])
    ensures DeliversRun(a + b, m, frames)
  {
    hide Valid, FrameStep, Sent, StampsOf, Pid, ValidFrame, Concat, Reads, TsRoundTrip.Stamps;
    StampsAppend(a, b);
    forall q ensures Reads(a + b, q) == SentBytes(m, frames, q) {
      ReadsAppend(a, b, q);
    }
  }

  // ----- the bytes in any chunks -----------------------------------------------------------------

  /** The packets of a run are found where they are. */
  lemma {:induction false} SplitFlat(ps: seq<Packet188>)
    ensures TsReader.Split(false, Flat(ps)) == TsReader.Cut(Tails(ps), false, [])
    decreases |ps|
  {
    hide TsReader.Split;
    if ps == [] {
      TsReader.SplitShort(false, []);
    } else {
      var p: seq<byte>, rest := ps[0], Flat(ps[1..]);
      assert Flat(ps) == p + rest;
      TsReader.SplitByte(p + rest);
      assert (p + rest)[1..] == p[1..] + rest;
      TsReader.SplitPacket(p[1..] + rest);
      assert (p[1..] + rest)[..187] == p[1..] && (p[1..] + rest)[187..] == rest;
      SplitFlat(ps[1..]);
      assert Tails(ps) == [p[1..]] + Tails(ps[1..]);
    }
  }

  /** Whole packets, cut anywhere, are read as they would be at once. */
  lemma {:induction false} FeedAllSplit(s: TsReader.Stream, chunks: seq<seq<byte>>)
    requires |s.kept| < 187 && (s.sync || s.kept == [])
    ensures var c := TsReader.Split(s.sync, s.kept + Concat(chunks));
      TsReader.FeedAll(s, chunks) ==
      (TsReader.Stream(TsReader.Packets(s.demux, c.packets).0, c.sync, c.rest), TsReader.Packets(s.demux, c.packets).1)
    decreases |chunks|
  {
    hide TsReader.Split, TsReader.Packets;
    if chunks == [] {
      assert s.kept + Concat(chunks) == s.kept;
      TsReader.SplitShort(s.sync, s.kept);
      TsReader.PacketsNone(s.demux);
    } else {
      var rest := Concat(chunks[1..]);
      var c := TsReader.Split(s.sync, s.kept + chunks[0]);
      Associative(s.kept, chunks[0], rest);
      TsReader.SplitAnywhere(s.sync, s.kept + chunks[0], rest);
      FeedAllSplit(TsReader.Feed(s, chunks[0]).0, chunks[1..]);
      PacketsAppend(s.demux, c.packets, TsReader.Split(c.sync, c.rest + rest).packets);
    }
  }

  lemma BegunValid(m: Mux)
    requires Valid(m)
    ensures Valid(Begun(m)) && Begun(m).changed
  {
  }

  const START := TsReader.Stream(TsReader.EMPTY, false, [])

  /** Mux then demux loses nothing: whatever tracks and frames, on a writer beginning
      its program with any tracks, counters and version left over, and however the bytes
      are cut, each pid gets the bytes written to it in order, each stamp comes back, and
      no packet is found missing. */
  lemma MuxDemuxLossless(m: Mux, frames: seq<Frame>, chunks: seq<seq<byte>>)
    requires Valid(m) && forall f :: f in frames ==> ValidFrame(f) && Writable(f)
    requires Concat(chunks) == WriteRun(Writer(Begun(m), 0, 0), frames).1
    ensures DeliversRun(TsReader.FeedAll(START, chunks).1, Begun(m), frames)
  {
    hide Valid, WriteRun, RunPackets, ValidFrame, TsReader.FeedAll, TsReader.Packets, Concat, DeliversRun;
    var begun := Begun(m);
    BegunValid(m);
    var ps := RunPackets(begun, frames).1;
    RunIsPackets(begun, frames);
    FeedAllSplit(START, chunks);
    assert [] + Concat(chunks) == Concat(chunks);
    SplitFlat(ps);
    SyncedFirst(begun);
    RunRead(begun, TsReader.EMPTY, frames);
  }
}
