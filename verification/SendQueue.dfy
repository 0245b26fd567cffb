/** Socket: writing to a stream that may take less than it is given. */
module SendQueue {
  import opened Bytes

  /** What the system answers to a send: how many bytes it takes, or that it would block. */
  datatype Answer = Takes(n: nat) | WouldBlock

  /** One run of sends over a queue, answer by answer: the bytes taken and what is left. */
  function Flushed(queue: seq<seq<byte>>, answer: nat -> Answer, i: nat): (r: (seq<byte>, seq<seq<byte>>))
    decreases |queue|
  {
    if queue == [] || answer(i).WouldBlock? then ([], queue)
    else if answer(i).n < |queue[0]| then (queue[0][..answer(i).n], [queue[0][answer(i).n..]] + queue[1..])
    else (queue[0] + Flushed(queue[1..], answer, i + 1).0, Flushed(queue[1..], answer, i + 1).1)
  }

  /** Nothing is lost, doubled or put out of order. */
  lemma {:induction false} FlushKeepsBytes(queue: seq<seq<byte>>, answer: nat -> Answer, i: nat)
    ensures Flushed(queue, answer, i).0 + Concat(Flushed(queue, answer, i).1) == Concat(queue)
    decreases |queue|
  {
    if queue != [] && answer(i).Takes? {
      var n, rest := answer(i).n, Flushed(queue[1..], answer, i + 1);
      if n < |queue[0]| {
        var left := [queue[0][n..]] + queue[1..];
        assert left[0] == queue[0][n..] && left[1..] == queue[1..];
        assert queue[0][..n] + (queue[0][n..] + Concat(queue[1..])) == queue[0] + Concat(queue[1..]);
      } else {
        FlushKeepsBytes(queue[1..], answer, i + 1);
        Associative(queue[0], rest.0, Concat(rest.1));
      }
    } else {
      assert [] + Concat(queue) == Concat(queue);
    }
  }

  lemma {:induction false} ConcatAppend(a: seq<seq<byte>>, b: seq<byte>)
    ensures Concat(a + [b]) == Concat(a) + b
    decreases |a|
  {
    if a == [] {
      assert a + [b] == [b] && Concat([b]) == b + [];
    } else {
      assert (a + [b])[1..] == a[1..] + [b];
      ConcatAppend(a[1..], b);
      Associative(a[0], Concat(a[1..]), b);
    }
  }

  class Socket {
    var queue: seq<seq<byte>>
    var queueing: nat
    var sending: bool
    /** Every byte the system took, and every byte written. */
    var taken: seq<byte>
    ghost var written: seq<byte>

    /** Taken and queued bytes are all the written ones in order, whatever the counters say. */
    ghost predicate Exact()
      reads this
    {
      taken + Concat(queue) == written
    }

    predicate Counted()
      reads this
    {
      queueing == |Concat(queue)|
    }

    constructor ()
      ensures Exact() && Counted() && queue == [] && !sending && written == []
    {
      queue, queueing, sending, taken, written := [], 0, false, [], [];
    }

    /** write: straight to the system if nothing is queued, and queued for the rest. */
    method Write(packet: seq<byte>, answer: Answer) returns (sent: nat)
      requires Exact() && Counted()
      modifies this
      ensures Exact() && Counted() && written == old(written) + packet
      ensures old(queue) != [] ==> queue == old(queue) + [packet] && taken == old(taken) && sent == 0
      ensures old(queue) == [] ==> sent == (if answer.Takes? then Min(answer.n, |packet|) else 0) && taken == old(taken) + packet[..sent]
      ensures old(queue) == [] && answer.Takes? && sent == |packet| ==> queue == [] && !sending
    {
      ConcatAppend(queue, packet);
      written := written + packet;
      Associative(taken, Concat(queue), packet);
      if queue != [] {
        queue := queue + [packet];
        queueing := queueing + |packet|;
        return 0;
      }
      sending := true;
      sent := 0;
      if answer.Takes? {
        sent := Min(answer.n, |packet|);
        taken := taken + packet[..sent];
        assert old(taken) + [] == old(taken) && packet[..|packet|] == packet;
        if sent >= |packet| {
          sending := false;
          assert taken + [] == taken;
          return;
        }
      }
      var rest := packet[sent..];
      assert [] + rest == rest && packet[..sent] + rest == packet;
      ConcatAppend([], rest);
      assert [] + [rest] == [rest];
      Associative(old(taken), packet[..sent], rest);
      queue := queue + [rest];
      queueing := queueing + |rest|;
    }

    /** flush: from the front of the queue until a send falls short or would block. The
        number of bytes sent is added up on 32 bits. */
    method Flush(answer: nat -> Answer)
      requires Exact() && Counted()
      modifies this
      ensures Exact() && written == old(written) && queue == Flushed(old(queue), answer, 0).1
      ensures taken == old(taken) + Flushed(old(queue), answer, 0).0
      ensures Counted() <==> |Flushed(old(queue), answer, 0).0| < U32
      ensures sending == (old(sending) && (|Flushed(old(queue), answer, 0).0| % U32 == 0 || queueing > 0))
    {
      hide Flushed;
      FlushKeepsBytes(queue, answer, 0);
      ghost var result := Flushed(queue, answer, 0);
      var count := SendAll(answer);
      Associative(old(taken), result.0, Concat(queue));
      assert |Concat(queue)| == old(queueing) - |result.0|;
      if count > 0 {
        queueing := queueing - count;
        if queueing == 0 {
          sending := false;
        }
      }
    }

    method SendAll(answer: nat -> Answer) returns (count: UInt32)
      modifies `queue, `taken
      ensures queue == Flushed(old(queue), answer, 0).1
      ensures taken == old(taken) + Flushed(old(queue), answer, 0).0
      ensures count == |Flushed(old(queue), answer, 0).0| % U32
    {
      hide Flushed;
      ghost var result, total := Flushed(queue, answer, 0), taken + Flushed(queue, answer, 0).0;
      ghost var sum := 0;
      count := 0;
      var i := 0;
      while queue != []
        invariant taken + Flushed(queue, answer, i).0 == total && Flushed(queue, answer, i).1 == result.1
        invariant |taken| == |old(taken)| + sum && count == sum % U32
        decreases |queue|
      {
        FlushedIs(queue, answer, i);
        var reply := answer(i);
        if reply.WouldBlock? {
          assert taken + [] == taken;
          return;
        }
        ghost var before := taken;
        var front := queue[0];
        var sent := Min(reply.n, |front|);
        taken := taken + front[..sent];
        CountOn(sum, sent);
        count, sum := (count + sent) % U32, sum + sent;
        if sent < |front| {
          queue := [front[sent..]] + queue[1..];
          return;
        }
        assert front[..|front|] == front;
        Associative(before, front, Flushed(queue[1..], answer, i + 1).0);
        queue := queue[1..];
        i := i + 1;
      }
      FlushedIs(queue, answer, i);
      assert taken + [] == taken;
    }
  }

  lemma FlushedIs(queue: seq<seq<byte>>, answer: nat -> Answer, i: nat)
    ensures Flushed(queue, answer, i)
      == if queue == [] || answer(i).WouldBlock? then ([], queue)
         else if answer(i).n < |queue[0]| then (queue[0][..answer(i).n], [queue[0][answer(i).n..]] + queue[1..])
         else (queue[0] + Flushed(queue[1..], answer, i + 1).0, Flushed(queue[1..], answer, i + 1).1)
  {
  }

  lemma CountOn(sum: nat, sent: nat)
    ensures (sum % U32 + sent) % U32 == (sum + sent) % U32
  {
    assert sum == sum / U32 * U32 + sum % U32;
    WholeTurns(sum % U32 + sent, sum / U32);
  }
}
