/** When the cutting of an FLV stream into chunks does not matter. */
module FlvChunks {
  import opened Bytes
  import opened FlvReader

  /** A type byte is ahead of what is to skip, or a tag is under way. */
  predicate Ready(s: State)
  {
    s.kind != TYPE_EMPTY || s.size > 0
  }

  /** No tag of type 0 is begun, but for a type byte with nothing behind it. */
  predicate Clean(s: State, r: seq<byte>)
    decreases |r|, 2
  {
    if r == [] then true
    else if s.kind == TYPE_EMPTY then
      if |r| < s.size then true
      else CleanKind(s, U8(Drop(r, Gap(s.size))), Drop(Drop(r, Gap(s.size)), 1))
    else CleanSized(s, r)
  }

  predicate CleanKind(s: State, kind: byte, r: seq<byte>)
    decreases |r|, 2
  {
    if kind == TYPE_EMPTY then r == [] else CleanSized(s.(kind := kind, size := 0), r)
  }

  predicate CleanSized(s: State, r: seq<byte>)
    decreases |r|, 1
  {
    if s.size != 0 then CleanWhole(s, r)
    else if |r| < 3 then true
    else CleanWhole(s.(size := U24(r) + 7), r[3..])
  }

  /** The state behind a whole tag. */
  function Behind(s: State, body: seq<byte>): State
  {
    s.(kind := TYPE_EMPTY, size := 5, tags := Tag(s.tags, s.kind, body).0)
  }

  predicate CleanWhole(s: State, r: seq<byte>)
    requires s.size > 0
    decreases |r|, 0
  {
    |r| < s.size || Clean(Behind(s, r[..s.size]), r[s.size..])
  }

  /** Reading on after `x` with `b`. */
  function On(x: Parsed, b: seq<byte>): Parsed
  {
    With(x.media, Loop(x.state, x.rest + b))
  }

  /** A first part read into `x` is a good start for all of it, `whole`. */
  predicate Continues(x: Parsed, b: seq<byte>, whole: Parsed)
  {
    whole == On(x, b) && Clean(x.state, x.rest + b) && (Ready(x.state) || x.rest + b == [])
  }

  /** Waiting for more: nothing was given yet. */
  lemma Waits(s: State, r: seq<byte>, b: seq<byte>)
    requires Ready(s) || r + b == []
    requires Clean(s, r + b)
    ensures Continues(Parsed(s, [], r), b, Loop(s, r + b))
  {
    hide Loop, Clean;
    WithNothing(Loop(s, r + b));
  }

  lemma {:induction false} LoopSplit(s: State, a: seq<byte>, b: seq<byte>)
    requires Ready(s) && Clean(s, a + b)
    ensures Continues(Loop(s, a), b, Loop(s, a + b))
    decreases |a|, 2
  {
    hide Sized, CleanSized, Continues;
    if a == [] {
      assert a + b == b == [] + b;
      Waits(s, [], b);
    } else if s.kind == TYPE_EMPTY {
      if |a| < s.size {
        SkipSplit(s, a, b);
      } else {
        KindSplit(s, a, b);
      }
    } else {
      SizedSplit(s, a, b);
    }
  }

  /** The skip is counted down over the chunks. */
  lemma SkipSplit(s: State, a: seq<byte>, b: seq<byte>)
    requires s.kind == TYPE_EMPTY && 0 < |a| < s.size && Clean(s, a + b)
    ensures Continues(Loop(s, a), b, Loop(s, a + b))
  {
    hide Loop, Clean;
    var s1 := s.(size := s.size - |a|);
    LoopUnfold(s, a);
    assert [] + b == b;
    SkipOn(s, a, b);
    WithNothing(Loop(s1, b));
  }

  lemma SkipOn(s: State, a: seq<byte>, b: seq<byte>)
    requires s.kind == TYPE_EMPTY && 0 < |a| < s.size
    ensures Loop(s, a + b) == Loop(s.(size := s.size - |a|), b)
    ensures Clean(s, a + b) <==> Clean(s.(size := s.size - |a|), b)
  {
    hide Sized, CleanKind, Loop, Clean;
    var s1 := s.(size := s.size - |a|);
    if |b| < s1.size {
      SkipShort(s, a, b);
    } else {
      SkipLong(a, b, s.size);
      LoopKind(s, a + b);
      LoopKind(s1, b);
      CleanUnfold(s, a + b);
      CleanUnfold(s1, b);
      CleanKindSame(s, s1, b[s1.size - 1], b[s1.size..]);
    }
  }

  lemma SkipShort(s: State, a: seq<byte>, b: seq<byte>)
    requires s.kind == TYPE_EMPTY && 0 < |a| < s.size && |b| < s.size - |a|
    ensures Loop(s, a + b) == Loop(s.(size := s.size - |a|), b)
    ensures Clean(s, a + b) && Clean(s.(size := s.size - |a|), b)
  {
    hide Sized, CleanKind;
  }

  lemma CleanUnfold(s: State, r: seq<byte>)
    requires s.kind == TYPE_EMPTY && 0 < s.size <= |r|
    ensures Clean(s, r) <==> CleanKind(s, r[s.size - 1], r[s.size..])
  {
    hide CleanKind, U8, Drop, Gap;
    GapIs(s.size);
    DropIs(r, s.size);
  }

  lemma SkipLong(a: seq<byte>, b: seq<byte>, n: nat)
    requires |a| < n <= |a| + |b|
    ensures (a + b)[n - 1] == b[n - 1 - |a|] && (a + b)[n..] == b[n - |a|..]
  {
  }

  lemma CleanKindSame(s: State, s1: State, kind: byte, r: seq<byte>)
    requires s1 == s.(size := s1.size)
    ensures CleanKind(s, kind, r) <==> CleanKind(s1, kind, r)
  {
    hide CleanSized;
  }

  lemma DropInto(a: seq<byte>, b: seq<byte>, n: nat)
    requires n < |a|
    ensures U8(Drop(a + b, n)) == U8(Drop(a, n)) && Drop(Drop(a + b, n), 1) == Drop(Drop(a, n), 1) + b
    ensures |Drop(Drop(a, n), 1)| < |a|
  {
    assert (a + b)[n..] == a[n..] + b;
  }

  lemma {:induction false} KindSplit(s: State, a: seq<byte>, b: seq<byte>)
    requires s.kind == TYPE_EMPTY && 0 < s.size <= |a| && Clean(s, a + b)
    ensures Continues(Loop(s, a), b, Loop(s, a + b))
    decreases |a|, 1
  {
    hide Sized, CleanSized, Continues, U8, Drop;
    DropInto(a, b, Gap(s.size));
    var kind, rest := U8(Drop(a, Gap(s.size))), Drop(Drop(a, Gap(s.size)), 1);
    var s1 := s.(kind := kind, size := 0);
    if kind == TYPE_EMPTY {
      assert rest == [] && b == [];
      assert rest + b == [];
      EmptyWaits(s1);
      Waits(s1, [], b);
    } else {
      SizedSplit(s1, rest, b);
    }
  }

  lemma EmptyWaits(s: State)
    requires s.size == 0
    ensures Sized(s, []) == Parsed(s, [], []) == Loop(s, [] + [])
    ensures Clean(s, [] + [])
  {
  }

  lemma LoopIsSized(s: State, r: seq<byte>)
    requires s.kind != TYPE_EMPTY
    ensures Loop(s, r) == Sized(s, r) && (Clean(s, r) <==> CleanSized(s, r))
  {
    if r == [] {
      assert r == [];
    }
  }

  lemma {:induction false} SizedSplit(s: State, a: seq<byte>, b: seq<byte>)
    requires s.kind != TYPE_EMPTY && CleanSized(s, a + b)
    ensures Continues(Sized(s, a), b, Sized(s, a + b))
    decreases |a|, 1
  {
    hide Whole, CleanWhole, Continues, Loop, Clean;
    LoopIsSized(s, a + b);
    if s.size != 0 {
      WholeSplit(s, a, b);
    } else if |a| < 3 {
      Waits(s, a, b);
    } else {
      assert (a + b)[3..] == a[3..] + b;
      LengthSame(a, b);
      WholeSplit(s.(size := U24(a) + 7), a[3..], b);
    }
  }

  lemma LengthSame(a: seq<byte>, b: seq<byte>)
    requires |a| >= 3
    ensures U24(a + b) == U24(a)
  {
  }

  lemma {:induction false} WholeSplit(s: State, a: seq<byte>, b: seq<byte>)
    requires s.kind != TYPE_EMPTY && s.size > 0 && CleanWhole(s, a + b)
    ensures Continues(Whole(s, a), b, Whole(s, a + b))
    decreases |a|, 0
  {
    hide Loop, Clean, Continues, Tag;
    if |a| < s.size {
      assert Loop(s, a + b) == Whole(s, a + b) && Clean(s, a + b) by {
        hide Whole, CleanWhole;
        LoopIsSized(s, a + b);
      }
      Waits(s, a, b);
    } else {
      assert (a + b)[..s.size] == a[..s.size] && (a + b)[s.size..] == a[s.size..] + b;
      var s1 := Behind(s, a[..s.size]);
      LoopSplit(s1, a[s.size..], b);
      Given(Tag(s.tags, s.kind, a[..s.size]).1, Loop(s1, a[s.size..]), b, Loop(s1, a[s.size..] + b));
    }
  }

  lemma Given(media: seq<Media>, x: Parsed, b: seq<byte>, whole: Parsed)
    requires Continues(x, b, whole)
    ensures Continues(With(media, x), b, With(media, whole))
  {
    hide Loop, Clean;
    WithTwice(media, x.media, Loop(x.state, x.rest + b));
  }

  // ----- the signature --------------------------------------------------------------------

  predicate CleanSync(s: State, r: seq<byte>)
    decreases |r|
  {
    if |r| < 9 then true
    else if U24(r) == 0x464C56 then Clean(Signed(s, r), r[9..])
    else CleanSync(s, r[3..])
  }

  /** The state behind the signature. */
  function Signed(s: State, r: seq<byte>): State
    requires |r| >= 9
  {
    var size := U32At(r[5..]);
    s.(begin := false, size := if size > 9 then size - 4 else 5)
  }

  predicate CleanParse(s: State, r: seq<byte>)
  {
    if !s.begin then Clean(s, r)
    else if s.size == 0 then CleanSync(s, r)
    else Clean(s.(begin := false), r)
  }

  predicate Started(s: State)
  {
    s.begin || Ready(s)
  }

  predicate ContinuesParse(x: Parsed, b: seq<byte>, whole: Parsed)
  {
    whole == With(x.media, Parse(x.state, x.rest + b)) && CleanParse(x.state, x.rest + b) && (Started(x.state) || x.rest + b == [])
  }

  lemma LoopNotBegin(s: State, r: seq<byte>)
    requires !s.begin
    ensures !Loop(s, r).state.begin
    decreases |r|, 2
  {
    hide Sized;
    if r != [] {
      LoopUnfold(s, r);
      if s.kind != TYPE_EMPTY || |r| >= s.size {
        var s1 := if s.kind != TYPE_EMPTY then s else s.(kind := U8(Drop(r, Gap(s.size))), size := 0);
        var r1 := if s.kind != TYPE_EMPTY then r else Drop(Drop(r, Gap(s.size)), 1);
        SizedNotBegin(s1, r1);
      }
    }
  }

  lemma SizedNotBegin(s: State, r: seq<byte>)
    requires !s.begin
    ensures !Sized(s, r).state.begin
    decreases |r|, 1
  {
    hide Loop, Tag;
    var s1, r1 := if s.size != 0 then s else s.(size := U24(r) + 7), if s.size != 0 || |r| < 3 then r else r[3..];
    if |r1| >= s1.size {
      LoopNotBegin(Behind(s1, r1[..s1.size]), r1[s1.size..]);
    }
  }

  lemma LoopContinuesParse(s: State, a: seq<byte>, b: seq<byte>)
    requires !s.begin && Ready(s) && Clean(s, a + b)
    ensures ContinuesParse(Loop(s, a), b, Loop(s, a + b))
  {
    hide Loop, Clean;
    LoopSplit(s, a, b);
    LoopNotBegin(s, a);
  }

  lemma {:induction false} SyncSplit(s: State, a: seq<byte>, b: seq<byte>)
    requires s.begin && s.size == 0 && CleanSync(s, a + b)
    ensures ContinuesParse(Sync(s, a), b, Sync(s, a + b))
    decreases |a|
  {
    hide Loop, Clean;
    if |a| < 9 {
      WithNothing(Sync(s, a + b));
    } else {
      LengthSame(a, b);
      if U24(a) == 0x464C56 {
        assert (a + b)[9..] == a[9..] + b && (a + b)[5..] == a[5..] + b;
        SizeSame(a[5..], b);
        LoopContinuesParse(Signed(s, a), a[9..], b);
      } else {
        assert (a + b)[3..] == a[3..] + b;
        SyncSplit(s, a[3..], b);
      }
    }
  }

  lemma SizeSame(a: seq<byte>, b: seq<byte>)
    requires |a| >= 4
    ensures U32At(a + b) == U32At(a)
  {
  }

  lemma ParseSplit(s: State, a: seq<byte>, b: seq<byte>)
    requires Started(s) && CleanParse(s, a + b)
    ensures ContinuesParse(Parse(s, a), b, Parse(s, a + b))
  {
    hide Loop, Clean, Sync, CleanSync, ContinuesParse;
    if !s.begin {
      LoopContinuesParse(s, a, b);
    } else if s.size == 0 {
      SyncSplit(s, a, b);
    } else {
      LoopContinuesParse(s.(begin := false), a, b);
    }
  }

  // ----- any chunks ---------------------------------------------------------------------------

  /** Chunk after chunk, what each parse keeps seen again with the next. */
  function FeedAll(s: State, kept: seq<byte>, chunks: seq<seq<byte>>): Parsed
    decreases |chunks|
  {
    if chunks == [] then Parsed(s, [], kept)
    else
      var first := Parse(s, kept + chunks[0]);
      With(first.media, FeedAll(first.state, first.rest, chunks[1..]))
  }

  lemma Idle(s: State, chunks: seq<seq<byte>>)
    requires !s.begin && Concat(chunks) == []
    ensures FeedAll(s, [], chunks) == Parsed(s, [], []) == Parse(s, [])
    decreases |chunks|
  {
    hide Loop;
    LoopNothing(s);
    if chunks != [] {
      assert |chunks[0] + Concat(chunks[1..])| == 0;
      assert [] + chunks[0] == [];
      Idle(s, chunks[1..]);
    }
  }

  /** A stream without tags of type 0 gives the same media in the same order, and
      leaves the reader in the same state, however it is cut into chunks. */
  lemma {:induction false} ChunksDoNotMatter(s: State, kept: seq<byte>, chunks: seq<seq<byte>>)
    requires chunks != [] && Started(s) && CleanParse(s, kept + Concat(chunks))
    ensures FeedAll(s, kept, chunks) == Parse(s, kept + Concat(chunks))
    decreases |chunks|
  {
    hide Parse, CleanParse;
    var a, b := kept + chunks[0], Concat(chunks[1..]);
    assert kept + Concat(chunks) == a + b;
    ParseSplit(s, a, b);
    var x := Parse(s, a);
    if |chunks| == 1 {
      assert a + b == a;
      assert x.media + [] == x.media;
    } else if Started(x.state) {
      ChunksDoNotMatter(x.state, x.rest, chunks[1..]);
    } else {
      assert x.rest == [] && b == [] by {
        assert |x.rest + b| == 0;
      }
      Idle(x.state, chunks[1..]);
    }
  }

  // ----- the condition is exact ------------------------------------------------------------------

  /** Reading `a` and then `b`. */
  function Twice(s: State, a: seq<byte>, b: seq<byte>): Parsed
  {
    On(Loop(s, a), b)
  }

  lemma {:induction false} CleanPrefix(s: State, a: seq<byte>, b: seq<byte>)
    requires Ready(s) && Clean(s, a + b)
    ensures Clean(s, a)
    decreases |a|, 2
  {
    hide CleanSized;
    if a != [] {
      if s.kind == TYPE_EMPTY {
        if |a| >= s.size {
          DropInto(a, b, Gap(s.size));
          var kind, rest := U8(Drop(a, Gap(s.size))), Drop(Drop(a, Gap(s.size)), 1);
          hide U8, Drop;
          if kind != TYPE_EMPTY {
            CleanSizedPrefix(s.(kind := kind, size := 0), rest, b);
          } else {
            assert |rest + b| == 0;
          }
        }
      } else {
        CleanSizedPrefix(s, a, b);
      }
    }
  }

  lemma {:induction false} CleanSizedPrefix(s: State, a: seq<byte>, b: seq<byte>)
    requires s.kind != TYPE_EMPTY && CleanSized(s, a + b)
    ensures CleanSized(s, a)
    decreases |a|, 1
  {
    hide CleanWhole;
    if s.size != 0 {
      CleanWholePrefix(s, a, b);
    } else if |a| >= 3 {
      assert (a + b)[3..] == a[3..] + b;
      LengthSame(a, b);
      CleanWholePrefix(s.(size := U24(a) + 7), a[3..], b);
    }
  }

  lemma {:induction false} CleanWholePrefix(s: State, a: seq<byte>, b: seq<byte>)
    requires s.kind != TYPE_EMPTY && s.size > 0 && CleanWhole(s, a + b)
    ensures CleanWhole(s, a)
    decreases |a|, 0
  {
    hide Clean;
    if |a| >= s.size {
      assert (a + b)[..s.size] == a[..s.size] && (a + b)[s.size..] == a[s.size..] + b;
      CleanPrefix(Behind(s, a[..s.size]), a[s.size..], b);
    }
  }

  /** Cut behind a type byte 0, the stream's next byte is taken for a skipped one. */
  lemma KindBreaks(s: State, r: seq<byte>)
    requires s.kind == TYPE_EMPTY && 0 < s.size < |r| && r[s.size - 1] == TYPE_EMPTY
    ensures Loop(s, r[..s.size] + [r[s.size]]) != Twice(s, r[..s.size], [r[s.size]])
  {
    hide Sized;
    var a, b := r[..s.size], [r[s.size]];
    var s1 := s.(size := 0);
    assert Drop(Drop(a, s.size - 1), 1) == [] && U8(Drop(a, s.size - 1)) == 0;
    DropInto(a, b, s.size - 1);
    assert Loop(s, a) == Sized(s1, []);
    assert [] + b == b;
    assert Loop(s, a + b) == Sized(s1, b);
    ShortSized(s1, []);
    ShortSized(s1, b);
    assert Drop(b, Gap(0)) == [];
    assert Loop(s1, b) == Sized(s1, []);
  }

  lemma ShortSized(s: State, r: seq<byte>)
    requires s.size == 0 && |r| < 3
    ensures Sized(s, r) == Parsed(s, [], r)
  {
  }

  lemma GivenApart(media: seq<Media>, p: Parsed, q: Parsed)
    requires p != q
    ensures With(media, p) != With(media, q)
  {
    assert (media + p.media)[|media|..] == p.media && (media + q.media)[|media|..] == q.media;
  }

  /** Where the stream may not be cut. */
  lemma {:induction false} CutThatBreaks(s: State, r: seq<byte>) returns (k: nat)
    requires Ready(s) && !Clean(s, r)
    ensures k < |r| && Loop(s, r[..k] + [r[k]]) != Twice(s, r[..k], [r[k]])
    decreases |r|, 2
  {
    hide Sized, CleanSized, Loop;
    if s.kind == TYPE_EMPTY {
      var kind, rest := U8(Drop(r, Gap(s.size))), Drop(Drop(r, Gap(s.size)), 1);
      assert kind == r[s.size - 1] && rest == r[s.size..];
      if kind == TYPE_EMPTY {
        KindBreaks(s, r);
        k := s.size;
      } else {
        var s1 := s.(kind := kind, size := 0);
        var j := SizedCut(s1, rest);
        k := s.size + j;
        LoopSkips(s, r, j);
      }
    } else {
      k := SizedCut(s, r);
      LoopIsSized(s, r[..k] + [r[k]]);
      LoopIsSized(s, r[..k]);
    }
  }

  /** The skip and the type byte. */
  lemma LoopKind(s: State, r: seq<byte>)
    requires s.kind == TYPE_EMPTY && 0 < s.size <= |r|
    ensures Loop(s, r) == Sized(s.(kind := r[s.size - 1], size := 0), r[s.size..])
  {
    hide Sized, Loop, U8, Drop, Gap;
    GapIs(s.size);
    DropIs(r, s.size);
    LoopUnfold(s, r);
  }

  lemma GapIs(size: UInt32)
    requires size > 0
    ensures Gap(size) == size - 1
  {
  }

  lemma LoopSkips(s: State, r: seq<byte>, j: nat)
    requires s.kind == TYPE_EMPTY && s.size > 0 && s.size + j < |r| && r[s.size - 1] != TYPE_EMPTY
    ensures var s1 := s.(kind := r[s.size - 1], size := 0);
      var a := r[..s.size + j];
      Loop(s, a) == Sized(s1, r[s.size..][..j])
      && Loop(s, a + [r[s.size + j]]) == Sized(s1, r[s.size..][..j] + [r[s.size..][j]])
  {
    hide Sized, Loop;
    var a, c := r[..s.size + j], r[..s.size + j] + [r[s.size + j]];
    LoopKind(s, a);
    LoopKind(s, c);
    assert a[s.size..] == r[s.size..][..j];
    assert c[s.size..] == r[s.size..][..j] + [r[s.size..][j]];
  }

  lemma DropIs(a: seq<byte>, n: nat)
    requires 0 < n <= |a|
    ensures U8(Drop(a, n - 1)) == a[n - 1] && Drop(Drop(a, n - 1), 1) == a[n..]
  {
  }

  lemma {:induction false} SizedCut(s: State, r: seq<byte>) returns (k: nat)
    requires s.kind != TYPE_EMPTY && !CleanSized(s, r)
    ensures k < |r| && Sized(s, r[..k] + [r[k]]) != On(Sized(s, r[..k]), [r[k]])
    decreases |r|, 1
  {
    hide Whole, CleanWhole, Loop;
    if s.size != 0 {
      k := WholeCut(s, r);
    } else {
      var j := WholeCut(s.(size := U24(r) + 7), r[3..]);
      k := j + 3;
      assert r[..k][3..] == r[3..][..j] && (r[..k] + [r[k]])[3..] == r[3..][..j] + [r[3..][j]];
      LengthSame(r[..3], r[3..k]);
      LengthSame(r[..3], r[3..k] + [r[k]]);
      LengthSame(r[..3], r[3..]);
      assert r[..3] + r[3..k] == r[..k] && r[..3] + (r[3..k] + [r[k]]) == r[..k] + [r[k]] && r[..3] + r[3..] == r;
    }
  }

  lemma {:induction false} WholeCut(s: State, r: seq<byte>) returns (k: nat)
    requires s.kind != TYPE_EMPTY && s.size > 0 && !CleanWhole(s, r)
    ensures k < |r| && Whole(s, r[..k] + [r[k]]) != On(Whole(s, r[..k]), [r[k]])
    decreases |r|, 0
  {
    hide Loop, Clean, Tag;
    var body, rest := r[..s.size], r[s.size..];
    var s1 := Behind(s, body);
    var j := CutThatBreaks(s1, rest);
    k := s.size + j;
    var media := Tag(s.tags, s.kind, body).1;
    assert r[..k][..s.size] == body && r[..k][s.size..] == rest[..j];
    assert (r[..k] + [r[k]])[..s.size] == body && (r[..k] + [r[k]])[s.size..] == rest[..j] + [rest[j]];
    GivenApart(media, Loop(s1, rest[..j] + [rest[j]]), Twice(s1, rest[..j], [rest[j]]));
    var x := Loop(s1, rest[..j]);
    WithTwice(media, x.media, Loop(x.state, x.rest + [rest[j]]));
  }

  /** Cutting a stream, or any beginning of it, never matters exactly if it begins no
      tag of type 0 that has anything behind its type byte. */
  lemma InsensitiveExactly(s: State, r: seq<byte>)
    requires Ready(s)
    ensures Clean(s, r) <==> forall a, b :: a + b <= r ==> Loop(s, a + b) == Twice(s, a, b)
  {
    hide Loop, Clean, Twice;
    if Clean(s, r) {
      forall a, b | a + b <= r ensures Loop(s, a + b) == Twice(s, a, b) {
        var c := a + b;
        assert r == c + r[|c|..];
        CleanPrefix(s, c, r[|c|..]);
        LoopSplit(s, a, b);
        TwiceIs(s, a, b);
      }
    } else {
      var k := CutThatBreaks(s, r);
      var a, b := r[..k], [r[k]];
      assert a + b == r[..k + 1];
      assert a + b <= r && Loop(s, a + b) != Twice(s, a, b);
    }
  }

  lemma TwiceIs(s: State, a: seq<byte>, b: seq<byte>)
    ensures Twice(s, a, b) == On(Loop(s, a), b)
  {
  }
}
