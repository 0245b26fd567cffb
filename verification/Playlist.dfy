/** Playlist, and how Segments::Clear shortens it. */
module Playlists {
  import opened Bytes

  function Sum(s: seq<UInt16>): nat
  {
    if s == [] then 0 else s[0] + Sum(s[1..])
  }

  /** The 32-bit running total kept beside the durations. */
  function Total(s: seq<UInt16>): UInt32
  {
    Sum(s) % U32
  }

  /** Within both limits: the count, and the total on 32 bits. */
  predicate Allowed(s: seq<UInt16>, maxSegments: UInt32, maxDuration: UInt16)
  {
    |s| <= (maxSegments + 1) % U32 && Total(s) <= maxSegments * maxDuration % U32
  }

  /** The longest end of `s` that is allowed. */
  function Shortened(s: seq<UInt16>, maxSegments: UInt32, maxDuration: UInt16): (r: seq<UInt16>)
    decreases |s|
  {
    if s == [] || Allowed(s, maxSegments, maxDuration) then s else Shortened(s[1..], maxSegments, maxDuration)
  }

  /** The number the next segment added gets. */
  function NextSequence(sequence: UInt32, count: nat): UInt32
  {
    (sequence + count) % U32
  }

  lemma ShortenOne(s: seq<UInt16>, maxSegments: UInt32, maxDuration: UInt16)
    ensures if s == [] || Allowed(s, maxSegments, maxDuration) then Shortened(s, maxSegments, maxDuration) == s
            else Shortened(s, maxSegments, maxDuration) == Shortened(s[1..], maxSegments, maxDuration)
  {
    hide Allowed;
  }

  class Playlist {
    var sequence: UInt32
    var maxDuration: UInt16
    var duration: UInt32
    var durations: seq<UInt16>

    /** The total is exact, and no item is longer than the longest ever added. */
    predicate Valid()
      reads this
    {
      duration == Total(durations) && NoLonger(durations, maxDuration)
    }

    constructor ()
      ensures Valid() && durations == [] && sequence == 0
    {
      sequence, maxDuration, duration, durations := 0, 0, 0, [];
    }

    method AddItem(d: UInt16)
      requires Valid()
      modifies this
      ensures Valid() && durations == old(durations) + [d] && sequence == old(sequence)
      ensures maxDuration == Max(old(maxDuration), d)
    {
      if d > maxDuration {
        maxDuration := d;
      }
      SumAppend(durations, [d]);
      duration := (duration + d) % U32;
      assert Sum([d]) == d;
      durations := durations + [d];
    }

    /** The longest duration stays what it was. */
    method RemoveItem()
      requires Valid()
      modifies this
      ensures Valid() && maxDuration == old(maxDuration)
      ensures old(durations) == [] ==> durations == [] && sequence == old(sequence)
      ensures old(durations) != [] ==> durations == old(durations)[1..] && sequence == (old(sequence) + 1) % U32
    {
      if |durations| > 0 {
        sequence := (sequence + 1) % U32;
        duration := (duration - durations[0]) % U32;
        durations := durations[1..];
      }
    }

    /** Segments::Clear: the durations of the segment files erased, first to last, are
        those that go. */
    method Clear(maxSegments: UInt32) returns (erased: seq<UInt16>)
      requires Valid()
      modifies this
      ensures Valid() && maxDuration == old(maxDuration)
      ensures durations == Shortened(old(durations), maxSegments, maxDuration)
      ensures erased + durations == old(durations)
      ensures NextSequence(sequence, |durations|) == NextSequence(old(sequence), |old(durations)|)
    {
      hide Shortened, NextSequence, Sum, NoLonger;
      var limit := maxSegments * maxDuration % U32;
      erased := [];
      while |durations| > (maxSegments + 1) % U32 || duration > limit
        invariant Valid() && maxDuration == old(maxDuration)
        invariant erased + durations == old(durations)
        invariant Shortened(durations, maxSegments, maxDuration) == Shortened(old(durations), maxSegments, maxDuration)
        invariant NextSequence(sequence, |durations|) == NextSequence(old(sequence), |old(durations)|)
        decreases |durations|
      {
        assert durations != [] by {
          NothingLasts(durations);
        }
        ShortenOne(durations, maxSegments, maxDuration);
        erased := erased + [durations[0]];
        SequenceMoves(sequence, |durations|);
        RemoveItem();
      }
      ShortenOne(durations, maxSegments, maxDuration);
    }
  }

  lemma NothingLasts(s: seq<UInt16>)
    ensures s == [] ==> Total(s) == 0
  {
  }

  lemma SequenceMoves(sequence: UInt32, count: nat)
    requires count > 0
    ensures NextSequence((sequence + 1) % U32, count - 1) == NextSequence(sequence, count)
  {
  }

  lemma {:induction false} SumAppend(a: seq<UInt16>, b: seq<UInt16>)
    ensures Sum(a + b) == Sum(a) + Sum(b)
    decreases |a|
  {
    if a == [] {
      assert a + b == b;
    } else {
      assert (a + b)[1..] == a[1..] + b;
      SumAppend(a[1..], b);
    }
  }

  lemma {:induction false} SumBound(s: seq<UInt16>, d: UInt16)
    requires NoLonger(s, d)
    ensures Sum(s) <= |s| * d
    decreases |s|
  {
    if s != [] {
      SumBound(s[1..], d);
      assert |s| * d == (|s| - 1) * d + d;
    }
  }

  function LastOf(s: seq<UInt16>, k: nat): seq<UInt16>
    requires k <= |s|
  {
    s[|s| - k..]
  }

  /** What is kept is an end of the list, allowed, and the longest such end. */
  lemma {:induction false} ShortenedIsLongest(s: seq<UInt16>, maxSegments: UInt32, maxDuration: UInt16)
    ensures var r := Shortened(s, maxSegments, maxDuration);
      |r| <= |s| && r == LastOf(s, |r|) && Allowed(r, maxSegments, maxDuration)
      && forall k :: |r| < k <= |s| ==> !Allowed(LastOf(s, k), maxSegments, maxDuration)
    decreases |s|
  {
    hide Allowed;
    if s == [] {
      EmptyAllowed(maxSegments, maxDuration);
    } else if Allowed(s, maxSegments, maxDuration) {
      assert LastOf(s, |s|) == s;
    } else {
      ShortenedIsLongest(s[1..], maxSegments, maxDuration);
      var r := Shortened(s, maxSegments, maxDuration);
      assert LastOf(s, |s|) == s;
      assert forall k :: 0 <= k < |s| ==> LastOf(s, k) == LastOf(s[1..], k);
    }
  }

  lemma EmptyAllowed(maxSegments: UInt32, maxDuration: UInt16)
    ensures Allowed([], maxSegments, maxDuration)
  {
    assert Sum([]) == 0;
  }

  predicate NoLonger(s: seq<UInt16>, d: UInt16)
  {
    forall i :: 0 <= i < |s| ==> s[i] <= d
  }

  lemma Bigger(a: nat, b: nat, d: nat)
    requires a <= b
    ensures a * d <= b * d
  {
    assert (b - a) * d >= 0;
  }

  lemma NeverMore(s: seq<UInt16>, maxSegments: UInt32, maxDuration: UInt16)
    requires maxSegments + 1 < U32
    ensures |Shortened(s, maxSegments, maxDuration)| <= maxSegments + 1
  {
    hide Shortened;
    ShortenedIsLongest(s, maxSegments, maxDuration);
  }

  /** An allowed end is not cut into. */
  lemma KeepsAllowed(s: seq<UInt16>, k: nat, maxSegments: UInt32, maxDuration: UInt16)
    requires k <= |s| && Allowed(LastOf(s, k), maxSegments, maxDuration)
    ensures k <= |Shortened(s, maxSegments, maxDuration)|
  {
    hide Shortened, Allowed;
    ShortenedIsLongest(s, maxSegments, maxDuration);
  }

  lemma EnoughAllowed(s: seq<UInt16>, maxSegments: UInt32, maxDuration: UInt16)
    requires NoLonger(s, maxDuration) && |s| <= maxSegments < U32 - 1
    requires maxSegments * maxDuration < U32 || maxSegments * maxDuration % U32 == U32 - 1
    ensures Allowed(s, maxSegments, maxDuration)
  {
    hide Sum;
    SumBound(s, maxDuration);
    Bigger(|s|, maxSegments, maxDuration);
  }

  /** As many items as fit `total`, none longer than `d`. */
  function Filled(total: nat, d: UInt16): (s: seq<UInt16>)
    requires d > 0
    ensures NoLonger(s, d)
    decreases total
  {
    if total == 0 then [] else [Min(total, d)] + Filled(total - Min(total, d), d)
  }

  lemma {:induction false} FilledSum(total: nat, d: UInt16)
    requires d > 0
    ensures Sum(Filled(total, d)) == total
    ensures |Filled(total, d)| > 0 ==> (|Filled(total, d)| - 1) * d < total
    decreases total
  {
    if total > 0 {
      FilledSum(total - Min(total, d), d);
      assert Filled(total, d)[1..] == Filled(total - Min(total, d), d);
      if total > d {
        assert (|Filled(total, d)| - 1) * d == (|Filled(total - d, d)| - 1) * d + d;
      }
    }
  }

  /** A list short enough in every way, of which clearing drops something. */
  lemma TooLong(maxSegments: UInt32, maxDuration: UInt16) returns (s: seq<UInt16>)
    requires maxSegments * maxDuration >= U32 && maxSegments * maxDuration % U32 < U32 - 1
    ensures NoLonger(s, maxDuration) && |Shortened(s, maxSegments, maxDuration)| < |s| <= maxSegments
  {
    hide Sum, Filled;
    var total := maxSegments * maxDuration % U32 + 1;
    s := Filled(total, maxDuration);
    FilledSum(total, maxDuration);
    if |s| > maxSegments {
      Bigger(maxSegments, |s| - 1, maxDuration);
    }
    assert !Allowed(s, maxSegments, maxDuration);
    hide Allowed;
    ShortenedIsLongest(s, maxSegments, maxDuration);
    assert LastOf(s, |s|) == s;
  }

  ghost predicate KeepsEnough(maxSegments: UInt32, maxDuration: UInt16)
  {
    forall s :: NoLonger(s, maxDuration) ==> Min(|s|, maxSegments) <= |Shortened(s, maxSegments, maxDuration)|
  }

  /** Clearing leaves the wanted segments, whatever their durations, exactly if the
      32-bit limit of their total does not wrap, or wraps to the greatest there is. */
  lemma KeepsEnoughExactly(maxSegments: UInt32, maxDuration: UInt16)
    requires maxSegments < U32 - 1
    ensures KeepsEnough(maxSegments, maxDuration)
      <==> maxSegments * maxDuration < U32 || maxSegments * maxDuration % U32 == U32 - 1
  {
    hide Shortened, NoLonger;
    if maxSegments * maxDuration < U32 || maxSegments * maxDuration % U32 == U32 - 1 {
      forall s | NoLonger(s, maxDuration)
        ensures Min(|s|, maxSegments) <= |Shortened(s, maxSegments, maxDuration)|
      {
        var k := Min(|s|, maxSegments);
        LastNoLonger(s, k, maxDuration);
        EnoughAllowed(LastOf(s, k), maxSegments, maxDuration);
        KeepsAllowed(s, k, maxSegments, maxDuration);
      }
    } else {
      var s := TooLong(maxSegments, maxDuration);
    }
  }

  lemma LastNoLonger(s: seq<UInt16>, k: nat, d: UInt16)
    requires k <= |s| && NoLonger(s, d)
    ensures NoLonger(LastOf(s, k), d)
  {
  }
}
