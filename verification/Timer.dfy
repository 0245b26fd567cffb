/** Timer: callbacks in buckets by deadline, raised in order. */
module Timers {
  import opened Options
  import opened Bytes

  /** The timers of a raise are numbered; a number stands for one OnTimer object, and
      `nextRaising` for its field of that name where it is not 0. */
  type Id = nat

  predicate Partitioned(timers: map<nat, set<Id>>, nextRaising: map<Id, nat>)
  {
    && (forall d :: d in timers ==> timers[d] != {})
    && (forall d, t :: d in timers && t in timers[d] ==> t in nextRaising && nextRaising[t] == d)
    && (forall t :: t in nextRaising ==> nextRaising[t] in timers && t in timers[nextRaising[t]])
  }

  /** The deadlines once `t` is set anew: none for a timeout of 0. */
  function Scheduled(nextRaising: map<Id, nat>, t: Id, now: nat, timeout: UInt32): map<Id, nat>
  {
    if timeout == 0 then nextRaising - {t} else nextRaising[t := now + timeout]
  }

  /** The deadlines after the timers `fired` were called at `now` and answered. */
  function AfterCalls(nextRaising: map<Id, nat>, fired: seq<Id>, now: nat, answer: Id -> UInt32): map<Id, nat>
    decreases |fired|
  {
    if fired == [] then nextRaising
    else
      Scheduled(AfterCalls(nextRaising, fired[..|fired| - 1], now, answer), fired[|fired| - 1], now, answer(fired[|fired| - 1]))
  }

  lemma {:induction false} AfterCallsAt(nextRaising: map<Id, nat>, fired: seq<Id>, now: nat, answer: Id -> UInt32, t: Id)
    ensures var m := AfterCalls(nextRaising, fired, now, answer);
      if t in fired then (t in m <==> answer(t) != 0) && (t in m ==> m[t] == now + answer(t))
      else (t in m <==> t in nextRaising) && (t in m ==> m[t] == nextRaising[t])
    decreases |fired|
  {
    if fired != [] {
      var init := fired[..|fired| - 1];
      AfterCallsAt(nextRaising, init, now, answer, t);
      assert fired == init + [fired[|fired| - 1]];
    }
  }

  /** Each due timer once, and no other. */
  ghost predicate ExactlyDue(nextRaising: map<Id, nat>, fired: seq<Id>, now: nat)
  {
    && (forall i, j :: 0 <= i < j < |fired| ==> fired[i] != fired[j])
    && (forall t :: t in fired <==> t in nextRaising && nextRaising[t] <= now)
  }

  predicate InOrder(nextRaising: map<Id, nat>, fired: seq<Id>)
  {
    && (forall i :: 0 <= i < |fired| ==> fired[i] in nextRaising)
    && (forall i, j :: 0 <= i < j < |fired| ==> nextRaising[fired[i]] <= nextRaising[fired[j]])
  }

  /** How long until the next deadline, cut to 32 bits, or 0 if there is none. */
  predicate Waits(nextRaising: map<Id, nat>, now: nat, waiting: UInt32)
  {
    if nextRaising == map[] then waiting == 0
    else exists t :: t in nextRaising && waiting == (nextRaising[t] - now) % U32
                     && forall u :: u in nextRaising ==> nextRaising[t] <= nextRaising[u]
  }

  function Due(nextRaising: map<Id, nat>, now: nat): set<Id>
  {
    set t | t in nextRaising && nextRaising[t] <= now
  }

  /** Some due timers called, the earliest first. */
  predicate Raised(start: map<Id, nat>, calls: seq<Id>, now: nat)
  {
    && (forall i, j :: 0 <= i < j < |calls| ==> calls[i] != calls[j])
    && (forall t :: t in calls ==> t in start && start[t] <= now)
    && InOrder(start, calls)
    && (forall c, t :: c in calls && t in start && t !in calls ==> start[c] <= start[t])
  }

  lemma RaisedMore(start: map<Id, nat>, calls: seq<Id>, t: Id, now: nat)
    requires Raised(start, calls, now) && t in start && t !in calls && start[t] <= now
    requires forall u :: u in start && u !in calls ==> start[t] <= start[u]
    ensures Raised(start, calls + [t], now)
  {
    var more := calls + [t];
    assert forall i :: 0 <= i < |calls| ==> more[i] == calls[i] && more[i] in calls;
    assert forall u :: u in more <==> u in calls || u == t;
  }

  /** What is still due is what was due and not called. */
  lemma DueAfter(start: map<Id, nat>, calls: seq<Id>, now: nat, answer: Id -> UInt32)
    ensures forall t :: t in Due(AfterCalls(start, calls, now, answer), now) <==> t in Due(start, now) && t !in calls
  {
    forall t
      ensures t in Due(AfterCalls(start, calls, now, answer), now) <==> t in Due(start, now) && t !in calls
    {
      AfterCallsAt(start, calls, now, answer, t);
    }
  }

  lemma NotRaised(start: map<Id, nat>, now: nat, answer: Id -> UInt32)
    ensures Raised(start, [], now) && AfterCalls(start, [], now, answer) == start
  {
  }

  lemma AllCalled(start: map<Id, nat>, calls: seq<Id>, now: nat, answer: Id -> UInt32)
    requires Raised(start, calls, now) && Due(AfterCalls(start, calls, now, answer), now) == {}
    ensures ExactlyDue(start, calls, now)
  {
    hide AfterCalls;
    DueAfter(start, calls, now, answer);
    assert forall t :: t in Due(start, now) <==> t in start && start[t] <= now;
  }

  // ----- buckets ------------------------------------------------------------------------

  function Inserted(timers: map<nat, set<Id>>, t: Id, d: nat): map<nat, set<Id>>
  {
    timers[d := (if d in timers then timers[d] else {}) + {t}]
  }

  lemma PartitionAdd(timers: map<nat, set<Id>>, nextRaising: map<Id, nat>, t: Id, d: nat)
    requires Partitioned(timers, nextRaising) && t !in nextRaising
    ensures Partitioned(Inserted(timers, t, d), nextRaising[t := d])
  {
  }

  /** The buckets with the one being raised put back. */
  function Whole(timers: map<nat, set<Id>>, deadline: nat, bucket: set<Id>): map<nat, set<Id>>
  {
    if bucket == {} then timers else timers[deadline := bucket]
  }

  lemma WholeAdd(timers: map<nat, set<Id>>, deadline: nat, bucket: set<Id>, t: Id, d: nat)
    requires d != deadline
    ensures Inserted(Whole(timers, deadline, bucket), t, d) == Whole(Inserted(timers, t, d), deadline, bucket)
  {
  }

  lemma PartitionRemove(timers: map<nat, set<Id>>, nextRaising: map<Id, nat>, deadline: nat, bucket: set<Id>, t: Id)
    requires deadline !in timers && t in bucket && Partitioned(Whole(timers, deadline, bucket), nextRaising)
    ensures t in nextRaising && nextRaising[t] == deadline
    ensures Partitioned(Whole(timers, deadline, bucket - {t}), nextRaising - {t})
  {
    var w, w' := Whole(timers, deadline, bucket), Whole(timers, deadline, bucket - {t});
    var m := nextRaising - {t};
    assert deadline in w && t in w[deadline];
    assert forall d :: d in timers ==> d in w && w[d] == timers[d];
    forall u | u in m ensures m[u] in w' && u in w'[m[u]] {
      assert u in w[nextRaising[u]];
    }
    forall d, u | d in w' && u in w'[d] ensures u in m && m[u] == d {
      assert d in w && u in w[d];
    }
  }

  lemma Any(s: set<nat>) returns (x: nat)
    requires s != {}
    ensures x in s
  {
    x :| x in s;
  }

  lemma {:induction false} LeastExists(s: set<nat>)
    requires s != {}
    ensures exists d :: d in s && forall e :: e in s ==> d <= e
    decreases |s|
  {
    var x := Any(s);
    var rest := s - {x};
    assert forall e :: e in s ==> e == x || e in rest;
    if rest != {} {
      LeastExists(rest);
      var d :| d in rest && forall e :: e in rest ==> d <= e;
      var least := if x < d then x else d;
      assert least in s && forall e :: e in s ==> least <= e;
    } else {
      assert forall e :: e in s ==> x <= e;
    }
  }

  lemma PutBack(m: map<Id, nat>, t: Id, d: nat)
    ensures (m - {t})[t := d] == m[t := d]
  {
  }

  lemma ScheduledIs(m: map<Id, nat>, t: Id, now: nat, timeout: UInt32)
    ensures timeout == 0 ==> Scheduled(m, t, now, timeout) == m - {t}
    ensures timeout != 0 ==> Scheduled(m, t, now, timeout) == (m - {t})[t := now + timeout]
  {
    PutBack(m, t, now + timeout);
  }

  lemma SizeMore(m: map<Id, nat>, t: Id, d: nat)
    requires t !in m
    ensures |m[t := d]| == |m| + 1
  {
    assert m[t := d].Keys == m.Keys + {t};
  }

  class Timer {
    var count: nat
    var timers: map<nat, set<Id>>
    var nextRaising: map<Id, nat>
    var fired: seq<Id>

    /** A timer sits in one bucket, that of its own deadline; none is empty, and the
        count is that of all. */
    predicate Valid()
      reads this
    {
      Partitioned(timers, nextRaising) && count == |nextRaising|
    }

    constructor ()
      ensures Valid() && nextRaising == map[] && fired == []
    {
      count, timers, nextRaising, fired := 0, map[], map[], [];
    }

    /** `Time::Now()` is read once. */
    method Set(t: Id, now: nat, timeout: UInt32)
      requires Valid()
      modifies this
      ensures Valid() && nextRaising == Scheduled(old(nextRaising), t, now, timeout) && fired == old(fired)
    {
      hide Partitioned, Inserted, Scheduled;
      ghost var m := nextRaising;
      var removed, moved := Remove(t);
      ScheduledIs(m, t, now, timeout);
      if timeout > 0 {
        SetRemoved(t, now, timeout, removed, moved);
      }
    }

    /** A timer in no bucket: new, or moved with the bucket it was alone in. */
    method SetRemoved(t: Id, now: nat, timeout: UInt32, removed: bool, moved: Option<set<Id>>)
      requires Valid() && t !in nextRaising && timeout > 0 && (moved.Some? ==> moved.value == {t})
      modifies this
      ensures Valid() && nextRaising == old(nextRaising)[t := now + timeout] && fired == old(fired)
    {
      hide Partitioned, Inserted;
      PartitionAdd(timers, nextRaising, t, now + timeout);
      SizeMore(nextRaising, t, now + timeout);
      if !removed {
        Add(t, now, timeout);
      } else {
        count := count + 1;
        Move(t, now + timeout, moved);
      }
    }

    method Move(t: Id, deadline: nat, moved: Option<set<Id>>)
      requires moved.Some? ==> moved.value == {t}
      modifies `timers, `nextRaising
      ensures timers == Inserted(old(timers), t, deadline) && nextRaising == old(nextRaising)[t := deadline]
    {
      nextRaising := nextRaising[t := deadline];
      assert {} + {t} == {t};
      if deadline in timers {
        timers := timers[deadline := timers[deadline] + {t}];
      } else {
        timers := timers[deadline := if moved.Some? then moved.value else {t}];
      }
    }

    method Add(t: Id, now: nat, timeout: UInt32)
      requires t !in nextRaising
      modifies `count, `timers, `nextRaising
      ensures timeout == 0 ==> count == old(count) && timers == old(timers) && nextRaising == old(nextRaising)
      ensures timeout != 0 ==> count == old(count) + 1 && timers == Inserted(old(timers), t, now + timeout)
      ensures timeout != 0 ==> nextRaising == old(nextRaising)[t := now + timeout]
    {
      if timeout == 0 {
        return;
      }
      count := count + 1;
      var deadline := now + timeout;
      nextRaising := nextRaising[t := deadline];
      var bucket := if deadline in timers then timers[deadline] else {};
      timers := timers[deadline := bucket + {t}];
    }

    /** Out of its bucket; a bucket it was alone in is handed back for another deadline. */
    method Remove(t: Id) returns (removed: bool, moved: Option<set<Id>>)
      requires Valid()
      modifies `count, `timers, `nextRaising
      ensures Valid() && removed == (t in old(nextRaising)) && nextRaising == old(nextRaising) - {t}
      ensures moved.Some? ==> moved.value == {t}
    {
      hide Partitioned;
      moved := None;
      if t !in nextRaising {
        assert nextRaising - {t} == nextRaising;
        return false, None;
      }
      var deadline := nextRaising[t];
      BucketOf(timers, nextRaising, t);
      ghost var others := timers - {deadline};
      var bucket := timers[deadline];
      assert Whole(others, deadline, bucket) == timers;
      PartitionRemove(others, nextRaising, deadline, bucket, t);
      nextRaising := nextRaising - {t};
      count := count - 1;
      if |bucket| == 1 {
        Alone(bucket, t);
        moved := Some(bucket);
        timers := timers - {deadline};
      } else {
        NotAlone(bucket, t);
        timers := timers[deadline := bucket - {t}];
        assert timers == Whole(others, deadline, bucket - {t});
      }
      return true, moved;
    }

    /** In the middle of a raise: these timers were called, and that is all that happened. */
    ghost predicate Going(start: map<Id, nat>, before: seq<Id>, calls: seq<Id>, now: nat, answer: Id -> UInt32)
      reads this
    {
      Valid() && fired == before + calls && Raised(start, calls, now) && nextRaising == AfterCalls(start, calls, now, answer)
    }

    /** raise at one reading of the clock: every due timer is called once, in the order
        of the deadlines, and set again if it answers a timeout. Handlers do not set
        timers themselves. */
    method Raise(now: nat, answer: Id -> UInt32) returns (waiting: UInt32, ghost calls: seq<Id>)
      requires Valid()
      modifies this
      ensures Valid()
      ensures fired == old(fired) + calls
      ensures ExactlyDue(old(nextRaising), calls, now) && InOrder(old(nextRaising), calls)
      ensures nextRaising == AfterCalls(old(nextRaising), calls, now, answer)
      ensures Waits(nextRaising, now, waiting)
    {
      hide Partitioned, Raised, AfterCalls, InOrder, ExactlyDue, Waits, Due;
      calls := [];
      ghost var start, before := nextRaising, fired;
      NotRaised(nextRaising, now, answer);
      assert fired + calls == fired;
      while timers != map[]
        invariant Going(start, before, calls, now, answer)
        decreases |Due(nextRaising, now)|
      {
        var deadline := First();
        if deadline > now {
          NoneDue(start, calls, now, answer, timers, deadline);
          waiting := (deadline - now) % U32;
          return;
        }
        calls := RaiseBucket(deadline, now, answer, start, before, calls);
      }
      NothingLeft(start, calls, now, answer, timers);
      waiting := 0;
    }

    method First() returns (deadline: nat)
      requires timers != map[]
      ensures deadline in timers && forall e :: e in timers ==> deadline <= e
    {
      LeastExists(timers.Keys);
      deadline :| deadline in timers && forall e :: e in timers ==> deadline <= e;
    }

    /** All of the first bucket. */
    method RaiseBucket(deadline: nat, now: nat, answer: Id -> UInt32, ghost start: map<Id, nat>, ghost before: seq<Id>,
                       ghost done: seq<Id>)
      returns (ghost calls: seq<Id>)
      requires Going(start, before, done, now, answer)
      requires deadline in timers && deadline <= now && forall e :: e in timers ==> deadline <= e
      modifies this
      ensures Going(start, before, calls, now, answer)
      ensures |Due(nextRaising, now)| < |Due(old(nextRaising), now)|
    {
      hide Partitioned, Raised, AfterCalls, Due;
      calls := done;
      var bucket := timers[deadline];
      FirstBucket(timers, nextRaising, deadline);
      timers := timers - {deadline};
      assert Whole(timers, deadline, bucket) == old(timers);
      FirstDue(start, done, now, answer, deadline);
      while bucket != {}
        invariant deadline !in timers && Partitioned(Whole(timers, deadline, bucket), nextRaising) && count == |nextRaising|
        invariant fired == before + calls
        invariant Raised(start, calls, now) && nextRaising == AfterCalls(start, calls, now, answer)
        invariant forall u :: u in start && u !in calls ==> deadline <= start[u]
        invariant |Due(nextRaising, now)| + |old(timers)[deadline]| == |Due(old(nextRaising), now)| + |bucket|
        decreases bucket
      {
        var t :| t in bucket;
        BucketTurn(timers, nextRaising, deadline, bucket, t, now, answer(t));
        AfterCallsAt(start, calls, now, answer, t);
        CalledOne(start, calls, t, now, answer);
        DueLess(nextRaising, t, now, answer(t));
        RaisedMore(start, calls, t, now);
        assert before + (calls + [t]) == before + calls + [t];
        bucket := bucket - {t};
        Call(t, now, answer);
        calls := calls + [t];
      }
    }

    /** One timer, already out of its bucket, is called and set again if it asks for it. */
    method Call(t: Id, now: nat, answer: Id -> UInt32)
      requires t in nextRaising && count > 0
      modifies this
      ensures fired == old(fired) + [t] && nextRaising == Scheduled(old(nextRaising), t, now, answer(t))
      ensures timers == Called(old(timers), t, now, answer(t))
      ensures count == old(count) - if answer(t) == 0 then 1 else 0
    {
      ghost var m := nextRaising;
      nextRaising := nextRaising - {t};
      fired := fired + [t];
      var timeout := answer(t);
      count := count - 1;
      Add(t, now, timeout);
      assert (m - {t})[t := now + timeout] == m[t := now + timeout];
    }
  }

  function Called(timers: map<nat, set<Id>>, t: Id, now: nat, timeout: UInt32): map<nat, set<Id>>
  {
    if timeout == 0 then timers else Inserted(timers, t, now + timeout)
  }

  /** Calling one timer of the bucket keeps the partition. */
  lemma BucketTurn(timers: map<nat, set<Id>>, nextRaising: map<Id, nat>, deadline: nat, bucket: set<Id>, t: Id, now: nat,
                   timeout: UInt32)
    requires deadline !in timers && t in bucket && Partitioned(Whole(timers, deadline, bucket), nextRaising) && deadline <= now
    ensures t in nextRaising && nextRaising[t] == deadline && |nextRaising| > 0
    ensures deadline !in Called(timers, t, now, timeout)
    ensures Partitioned(Whole(Called(timers, t, now, timeout), deadline, bucket - {t}), Scheduled(nextRaising, t, now, timeout))
    ensures |Scheduled(nextRaising, t, now, timeout)| == |nextRaising| - if timeout == 0 then 1 else 0
  {
    hide Partitioned;
    PartitionRemove(timers, nextRaising, deadline, bucket, t);
    MapSize(nextRaising, t, now + timeout);
    if timeout > 0 {
      PartitionAdd(Whole(timers, deadline, bucket - {t}), nextRaising - {t}, t, now + timeout);
      WholeAdd(timers, deadline, bucket - {t}, t, now + timeout);
      assert (nextRaising - {t})[t := now + timeout] == nextRaising[t := now + timeout];
    }
  }

  lemma MapSize(m: map<Id, nat>, t: Id, d: nat)
    requires t in m
    ensures |m - {t}| == |m| - 1 && |m[t := d]| == |m|
  {
    assert m[t := d].Keys == m.Keys;
    assert (m - {t}).Keys == m.Keys - {t};
  }

  lemma BucketOf(timers: map<nat, set<Id>>, nextRaising: map<Id, nat>, t: Id)
    requires Partitioned(timers, nextRaising) && t in nextRaising
    ensures nextRaising[t] in timers && t in timers[nextRaising[t]]
  {
  }

  /** The first bucket is not empty, and its timers are the earliest. */
  lemma FirstBucket(timers: map<nat, set<Id>>, nextRaising: map<Id, nat>, deadline: nat)
    requires Partitioned(timers, nextRaising) && deadline in timers && forall e :: e in timers ==> deadline <= e
    ensures timers[deadline] != {}
    ensures forall t :: t in nextRaising ==> deadline <= nextRaising[t]
    ensures forall t :: t in timers[deadline] ==> t in nextRaising && nextRaising[t] == deadline
  {
  }

  lemma FirstDue(start: map<Id, nat>, calls: seq<Id>, now: nat, answer: Id -> UInt32, deadline: nat)
    requires forall t :: t in AfterCalls(start, calls, now, answer) ==> deadline <= AfterCalls(start, calls, now, answer)[t]
    ensures forall u :: u in start && u !in calls ==> deadline <= start[u]
  {
    forall u | u in start && u !in calls ensures deadline <= start[u] {
      AfterCallsAt(start, calls, now, answer, u);
    }
  }

  lemma CalledOne(start: map<Id, nat>, calls: seq<Id>, t: Id, now: nat, answer: Id -> UInt32)
    ensures AfterCalls(start, calls + [t], now, answer) == Scheduled(AfterCalls(start, calls, now, answer), t, now, answer(t))
  {
    assert (calls + [t])[..|calls|] == calls;
  }

  /** A timer called is no longer due. */
  lemma DueLess(m: map<Id, nat>, t: Id, now: nat, timeout: UInt32)
    requires t in m && m[t] <= now
    ensures |Due(Scheduled(m, t, now, timeout), now)| == |Due(m, now)| - 1
  {
    assert Due(Scheduled(m, t, now, timeout), now) == Due(m, now) - {t};
  }

  lemma NoneDue(start: map<Id, nat>, calls: seq<Id>, now: nat, answer: Id -> UInt32, timers: map<nat, set<Id>>, deadline: nat)
    requires Raised(start, calls, now) && Partitioned(timers, AfterCalls(start, calls, now, answer))
    requires deadline in timers && deadline > now && forall e :: e in timers ==> deadline <= e
    ensures ExactlyDue(start, calls, now) && InOrder(start, calls)
    ensures Waits(AfterCalls(start, calls, now, answer), now, (deadline - now) % U32)
  {
    var m := AfterCalls(start, calls, now, answer);
    FirstBucket(timers, m, deadline);
    var t :| t in timers[deadline];
    assert Due(m, now) == {};
    AllCalled(start, calls, now, answer);
    assert t in m && m[t] == deadline;
  }

  lemma NothingLeft(start: map<Id, nat>, calls: seq<Id>, now: nat, answer: Id -> UInt32, timers: map<nat, set<Id>>)
    requires Raised(start, calls, now) && Partitioned(timers, AfterCalls(start, calls, now, answer)) && timers == map[]
    ensures ExactlyDue(start, calls, now) && InOrder(start, calls)
    ensures Waits(AfterCalls(start, calls, now, answer), now, 0)
  {
    var m := AfterCalls(start, calls, now, answer);
    assert m == map[];
    assert Due(m, now) == {};
    AllCalled(start, calls, now, answer);
  }

  lemma Alone(bucket: set<Id>, t: Id)
    requires |bucket| == 1 && t in bucket
    ensures bucket == {t}
  {
    assert |bucket - {t}| == 0;
  }

  lemma NotAlone(bucket: set<Id>, t: Id)
    requires |bucket| != 1 && t in bucket
    ensures bucket - {t} != {}
  {
    assert |bucket - {t}| == |bucket| - 1;
  }
}
