/** Anonymous pipes (kernel/msg/pipe.c): a byte ring shared by concurrent reads
    and writes.

    Each call runs with interrupts off until it returns or parks on a wait
    queue, so a run is any interleaving of such steps.  A call keeps its progress
    in a record; `blocked` says that its task is parked. */
module Pipe {
  const CAPACITY: nat := 4096
  const ATOMIC: nat := 512

  type byte = bv8

  // ---- the ring --------------------------------------------------------------

  function Slot(data: seq<byte>, p: nat): byte
    requires |data| == CAPACITY
  {
    data[p % CAPACITY]
  }

  /** The buffered bytes, oldest first. */
  function Ring(data: seq<byte>, head: nat, count: nat): (s: seq<byte>)
    requires |data| == CAPACITY
    ensures |s| == count
  {
    seq(count, i requires 0 <= i < count => Slot(data, head + i))
  }

  lemma Wrap(a: nat)
    requires a < 2 * CAPACITY
    ensures a % CAPACITY == if a < CAPACITY then a else a - CAPACITY
  {
  }

  /** What pipe_read copies out with two block moves, and what remains. */
  lemma ReadRing(data: seq<byte>, head: nat, count: nat, chunk: nat)
    requires |data| == CAPACITY && head < CAPACITY && chunk <= count <= CAPACITY
    ensures var first := if CAPACITY - head > chunk then chunk else CAPACITY - head;
            data[head..head + first] + data[..chunk - first] == Ring(data, head, count)[..chunk]
    ensures Ring(data, (head + chunk) % CAPACITY, count - chunk) == Ring(data, head, count)[chunk..]
  {
    var first := if CAPACITY - head > chunk then chunk else CAPACITY - head;
    var out, all := data[head..head + first] + data[..chunk - first], Ring(data, head, count);
    forall i | 0 <= i < chunk
      ensures out[i] == all[i]
    {
      assert all[i] == Slot(data, head + i);
      Wrap(head + i);
    }
    var head' := (head + chunk) % CAPACITY;
    Wrap(head + chunk);
    var rest := Ring(data, head', count - chunk);
    forall i | 0 <= i < count - chunk
      ensures rest[i] == all[chunk + i]
    {
      assert rest[i] == Slot(data, head' + i) && all[chunk + i] == Slot(data, head + (chunk + i));
      Wrap(head' + i);
      Wrap(head + chunk + i);
    }
  }

  /** After src has been stored behind the buffered bytes, wrapping around. */
  lemma WriteRing(data: seq<byte>, data': seq<byte>, head: nat, count: nat, src: seq<byte>)
    requires |data| == |data'| == CAPACITY && head < CAPACITY && count + |src| <= CAPACITY
    requires forall p: nat {:trigger Slot(data', p)} :: head <= p < head + count ==> Slot(data', p) == Slot(data, p)
    requires forall p: nat {:trigger Slot(data', p)} ::
               head + count <= p < head + count + |src| ==> Slot(data', p) == src[p - head - count]
    ensures Ring(data', head, count + |src|) == Ring(data, head, count) + src
  {
    var r, r' := Ring(data, head, count) + src, Ring(data', head, count + |src|);
    forall i | 0 <= i < count + |src|
      ensures r'[i] == r[i]
    {
      assert r'[i] == Slot(data', head + i);
    }
  }

  // ---- who sent what ---------------------------------------------------------

  /** One byte of the stream and the write call it came from. */
  datatype Sent = Sent(call: nat, val: byte)

  function Values(sent: seq<Sent>): (s: seq<byte>)
    ensures |s| == |sent|
  {
    seq(|sent|, i requires 0 <= i < |sent| => sent[i].val)
  }

  /** The bytes of one write call, in stream order. */
  function From(sent: seq<Sent>, call: nat): seq<byte>
  {
    if sent == [] then []
    else From(sent[..|sent| - 1], call) + (if sent[|sent| - 1].call == call then [sent[|sent| - 1].val] else [])
  }

  function Tagged(call: nat, src: seq<byte>): (s: seq<Sent>)
    ensures |s| == |src| && forall i :: 0 <= i < |src| ==> s[i] == Sent(call, src[i])
  {
    seq(|src|, i requires 0 <= i < |src| => Sent(call, src[i]))
  }

  lemma {:induction false} FromTagged(sent: seq<Sent>, call: nat, src: seq<byte>, other: nat)
    ensures From(sent + Tagged(call, src), other) == if other == call then From(sent, other) + src
        else From(sent, other)
    decreases |src|
  {
    var all := sent + Tagged(call, src);
    if src == [] {
      assert all == sent;
      assert From(sent, other) + src == From(sent, other);
    } else {
      var last := |src| - 1;
      assert Tagged(call, src)[..last] == Tagged(call, src[..last]);
      assert all[..|all| - 1] == sent + Tagged(call, src[..last]);
      FromTagged(sent, call, src[..last], other);
      assert src == src[..last] + [src[last]];
      assert all[|all| - 1] == Sent(call, src[last]);
      assert From(sent, other) + src == From(sent, other) + src[..last] + [src[last]];
    }
  }

  lemma {:induction false} NothingFrom(sent: seq<Sent>, call: nat)
    requires forall i :: 0 <= i < |sent| ==> sent[i].call != call
    ensures From(sent, call) == []
  {
    if sent != [] {
      NothingFrom(sent[..|sent| - 1], call);
    }
  }

  // ---- calls in progress -----------------------------------------------------

  datatype Call =
    | Reader(n: nat, nonblock: bool, blocked: bool)
    | Writer(buf: seq<byte>, done: nat, nonblock: bool, blocked: bool)

  function Parked(c: Call, blocked: bool): Call
  {
    match c
    case Reader(n, nonblock, _) => Reader(n, nonblock, blocked)
    case Writer(buf, done, nonblock, _) => Writer(buf, done, nonblock, blocked)
  }

  /** What a step ends with.  Negative kernel results have their own names. */
  datatype Outcome = Waiting | Count(n: nat) | Again | Interrupted | BrokenPipe

  /** The space a write waits for. */
  function Need(c: Call): nat
    requires c.Writer? && c.done <= |c.buf|
  {
    if |c.buf| <= ATOMIC then |c.buf| - c.done else 1
  }

  /** A parked call has a reason to be parked: no wake-up was lost. */
  ghost predicate CallOk(c: Call, count: nat, readers: nat, writers: nat, sent: seq<Sent>, id: nat)
  {
    match c
    case Reader(n, nonblock, blocked) =>
      && n > 0 && (blocked ==> !nonblock && count == 0 && writers > 0)
    case Writer(buf, done, nonblock, blocked) =>
      && done < |buf| && count <= CAPACITY
      && (|buf| <= ATOMIC ==> done == 0)
      && From(sent, id) == buf[..done]
      && (blocked ==> !nonblock && CAPACITY - count < Need(c) && readers > 0)
  }

  ghost predicate AllOk(calls: map<nat, Call>, count: nat, readers: nat, writers: nat, sent: seq<Sent>, nextCall: nat)
  {
    forall id :: id in calls ==> id < nextCall && CallOk(calls[id], count, readers, writers, sent, id)
  }

  /** wq_wake_all on one of the two queues of the pipe. */
  function Awake(calls: map<nat, Call>, reading: bool): map<nat, Call>
  {
    map id | id in calls :: if calls[id].Reader? == reading then Parked(calls[id], false) else calls[id]
  }

  lemma AwakeOk(calls: map<nat, Call>, reading: bool, count: nat, readers: nat, writers: nat, count': nat,
                readers': nat, writers': nat,
                sent: seq<Sent>, nextCall: nat)
    requires AllOk(calls, count, readers, writers, sent, nextCall) && count' <= CAPACITY
    // whatever may end the wait of the other side is not what changed
    requires !reading ==>
               forall id :: id in calls && calls[id].Reader? && calls[id].blocked ==> count' == 0 && writers' > 0
    requires reading ==> count <= count' && readers' > 0
    ensures AllOk(Awake(calls, reading), count', readers', writers', sent, nextCall)
  {
    var calls' := Awake(calls, reading);
    forall id | id in calls'
      ensures id < nextCall && CallOk(calls'[id], count', readers', writers', sent, id)
    {
      assert CallOk(calls[id], count, readers, writers, sent, id);
    }
  }

  /** The record of call `id` is replaced or, if gone, dropped; `src` was sent. */
  lemma SentOk(calls: map<nat, Call>, count: nat, readers: nat, writers: nat, sent: seq<Sent>, nextCall: nat, id: nat,
               src: seq<byte>)
    requires AllOk(calls, count, readers, writers, sent, nextCall) && id in calls
    ensures AllOk(calls - {id}, count, readers, writers, sent + Tagged(id, src), nextCall)
  {
    forall k | k in calls - {id}
      ensures k < nextCall && CallOk(calls[k], count, readers, writers, sent + Tagged(id, src), k)
    {
      assert CallOk(calls[k], count, readers, writers, sent, k);
      FromTagged(sent, id, src, k);
    }
  }

  /** A finished write of at most ATOMIC bytes, and where it landed. */
  datatype Landed = Landed(start: nat, buf: seq<byte>)

  ghost predicate LandedOk(l: Landed, stream: seq<byte>)
  {
    l.start + |l.buf| <= |stream| && stream[l.start..l.start + |l.buf|] == l.buf
  }

  lemma LandedGrows(l: Landed, stream: seq<byte>, more: seq<byte>)
    requires LandedOk(l, stream)
    ensures LandedOk(l, stream + more)
  {
    assert (stream + more)[l.start..l.start + |l.buf|] == stream[l.start..l.start + |l.buf|];
  }

  /** What the records of running and finished calls say. */
  ghost predicate Books(calls: map<nat, Call>, count: nat, readers: nat, writers: nat, sent: seq<Sent>, nextCall: nat,
                        landed: seq<Landed>, results: map<nat, seq<byte>>)
  {
    && AllOk(calls, count, readers, writers, sent, nextCall)
    && (forall i :: 0 <= i < |sent| ==> sent[i].call < nextCall)
    && (forall k :: 0 <= k < |landed| ==> LandedOk(landed[k], Values(sent)))
    && (forall id :: id in results ==> id < nextCall && id !in calls && From(sent, id) == results[id])
  }

  class Pipe {
    const data: array<byte>
    var head: nat
    var count: nat
    var readers: nat
    var writers: nat
    var calls: map<nat, Call>
    var nextCall: nat
    ghost var sent: seq<Sent>
    ghost var received: seq<byte>
    ghost var landed: seq<Landed>
    /** Finished writes: their buffers and how much of them was accepted. */
    ghost var results: map<nat, seq<byte>>

    ghost predicate Valid()
      reads this, data
    {
      && data.Length == CAPACITY && head < CAPACITY && count <= CAPACITY
      && received + Ring(data[..], head, count) == Values(sent)
      && Books(calls, count, readers, writers, sent, nextCall, landed, results)
    }

    /** pipe_create */
    constructor ()
      ensures Valid() && fresh(data) && readers == 1 && writers == 1 && count == 0 && calls == map[] && sent == []
      ensures received == []
    {
      data := new byte[CAPACITY](_ => 0);
      head, count, readers, writers := 0, 0, 1, 1;
      calls, nextCall := map[], 0;
      sent, received, landed, results := [], [], [], map[];
    }

    /** pipe_ref */
    method Ref(writeEnd: bool)
      requires Valid()
      modifies this`readers, this`writers
      ensures Valid()
      ensures writers == old(writers) + (if writeEnd then 1 else 0)
      ensures readers == old(readers) + (if writeEnd then 0 else 1)
    {
      SameOk(calls, count, readers, writers, count, if writeEnd then readers else readers + 1,
             if writeEnd then writers + 1 else writers, sent, nextCall);
      if writeEnd {
        writers := writers + 1;
      } else {
        readers := readers + 1;
      }
    }

    /** pipe_unref, except for freeing the pipe with the last reference. */
    method Unref(writeEnd: bool)
      requires Valid()
      modifies this`readers, this`writers, this`calls
      ensures Valid()
      ensures writers == (if writeEnd && old(writers) > 0 then old(writers) - 1 else old(writers))
      ensures readers == (if !writeEnd && old(readers) > 0 then old(readers) - 1 else old(readers))
      ensures calls == (if writeEnd && old(writers) == 1 then Awake(old(calls), true)
                        else if !writeEnd && old(readers) == 1 then Awake(old(calls), false) else old(calls))
    {
      hide Ring, Values, From, CallOk;
      if writeEnd {
        if writers > 0 {
          writers := writers - 1;
          if writers == 0 {
            LastWriter(calls, count, readers, sent, nextCall);
            calls := Awake(calls, true);
          } else {
            SameOk(calls, count, readers, writers + 1, count, readers, writers, sent, nextCall);
          }
        }
      } else if readers > 0 {
        readers := readers - 1;
        if readers == 0 {
          LastReader(calls, count, writers, sent, nextCall);
          calls := Awake(calls, false);
        } else {
          SameOk(calls, count, readers + 1, writers, count, readers, writers, sent, nextCall);
        }
      }
    }

    /** Entering pipe_read or pipe_write; a call of zero bytes returns at once. */
    method Begin(c: Call) returns (id: nat, started: bool)
      requires Valid() && !c.blocked && (c.Writer? ==> c.done == 0)
      modifies this`calls, this`nextCall
      ensures Valid() && (started <==> if c.Reader? then c.n > 0 else |c.buf| > 0)
      ensures calls == (if started then old(calls)[id := c] else old(calls)) && (started ==> id !in old(calls))
    {
      hide Ring, Values;
      started := if c.Reader? then c.n > 0 else |c.buf| > 0;
      id := nextCall;
      if started {
        NothingFrom(sent, id);
        calls := calls[id := c];
        nextCall := nextCall + 1;
      }
    }

    /** A signal ends the wait of a parked call: -EINTR, or what was written. */
    method Interrupt(id: nat) returns (out: Outcome)
      requires Valid() && id in calls && calls[id].blocked
      modifies this`calls, this`results
      ensures Valid() && calls == old(calls) - {id}
      ensures var c := old(calls)[id];
              && out == (if c.Writer? && c.done > 0 then Count(c.done) else Interrupted)
              && results == if c.Writer? then old(results)[id := c.buf[..c.done]] else old(results)
    {
      out := Ended(calls[id], Interrupted);
      Finish(id);
    }

    /** A call returns. */
    method Finish(id: nat)
      requires Valid() && id in calls
      modifies this`calls, this`results
      ensures Valid() && calls == old(calls) - {id}
      ensures results == if old(calls)[id].Writer? then old(results)[id := old(calls)[id].buf[..old(calls)[id].done]]
          else old(results)
    {
      hide Ring, Values, From;
      if calls[id].Writer? {
        results := results[id := calls[id].buf[..calls[id].done]];
      }
      calls := calls - {id};
    }

    /** pipe_read from its test on, until it returns or parks.  Bytes come out in
        stream order; a call parks only on an empty ring that still has a writer. */
    method ReadStep(id: nat, signal: bool) returns (out: Outcome, bytes: seq<byte>)
      requires Valid() && id in calls && calls[id].Reader? && !calls[id].blocked
      modifies this
      ensures Valid() && data[..] == old(data[..]) && readers == old(readers) && writers == old(writers)
      ensures received == old(received) + bytes && sent == old(sent)
      ensures old(count) > 0 ==>
                out == Count(|bytes|) && |bytes| == (if old(calls)[id].n < old(count) then old(calls)[id].n
                    else old(count))
                                 && calls == Awake(old(calls) - {id}, false)
      ensures old(count) == 0 ==>
                && bytes == [] && count == 0
                && out == (if writers == 0 then Count(0) else if old(calls)[id].nonblock then Again
                    else if signal then Interrupted else Waiting)
                && calls == if out == Waiting then old(calls)[id := Parked(old(calls)[id], true)] else old(calls) - {id}
    {
      bytes := [];
      if count == 0 {
        if writers == 0 {
          out := Count(0);
        } else if calls[id].nonblock {
          out := Again;
        } else if signal {
          out := Interrupted;
        } else {
          ParkOk(calls, count, readers, writers, sent, nextCall, id);
          calls := calls[id := Parked(calls[id], true)];
          return Waiting, [];
        }
        Finish(id);
        return;
      }
      bytes := TakeBytes(id);
      out := Count(|bytes|);
    }

    /** The copying part of pipe_read. */
    method TakeBytes(id: nat) returns (bytes: seq<byte>)
      requires Valid() && id in calls && calls[id].Reader? && count > 0
      modifies this
      ensures Valid() && readers == old(readers) && writers == old(writers) && sent == old(sent)
      ensures received == old(received) + bytes
      ensures |bytes| == (if old(calls)[id].n < old(count) then old(calls)[id].n else old(count))
      ensures calls == Awake(old(calls) - {id}, false)
    {
      hide Values, From, Ring;
      var n := calls[id].n;
      var chunk := if n < count then n else count;
      var first := CAPACITY - head;
      if first > chunk {
        first := chunk;
      }
      ReadRing(data[..], head, count, chunk);
      bytes := data[head..head + first] + data[..chunk - first];
      ghost var all := Ring(data[..], head, count);
      assert received + all == (received + all[..chunk]) + all[chunk..];
      assert bytes == all[..chunk];
      NobodyReads(calls, count, readers, writers, sent, nextCall);
      AwakeOk(calls - {id}, false, count, readers, writers, count - chunk, readers, writers, sent, nextCall);
      head := (head + chunk) % CAPACITY;
      count := count - chunk;
      received := received + bytes;
      calls := Awake(calls - {id}, false);
    }

    /** The two block moves of pipe_write. */
    method StoreRing(src: seq<byte>)
      requires data.Length == CAPACITY && head < CAPACITY && count + |src| <= CAPACITY
      modifies data
      ensures Ring(data[..], head, count + |src|) == old(Ring(data[..], head, count)) + src
    {
      var tail := (head + count) % CAPACITY;
      var first := CAPACITY - tail;
      if first > |src| {
        first := |src|;
      }
      ghost var before := data[..];
      forall k | 0 <= k < first {
        data[tail + k] := src[k];
      }
      forall k | 0 <= k < |src| - first {
        data[k] := src[first + k];
      }
      Stored(before, data[..], head, count, src, tail, first);
      WriteRing(before, data[..], head, count, src);
    }

    /** One chunk of pipe_write: a write of at most ATOMIC bytes goes in whole. */
    method PutChunk(id: nat) returns (finished: bool)
      requires Valid() && id in calls && calls[id].Writer? && !calls[id].blocked
      requires readers > 0 && CAPACITY - count >= Need(calls[id])
      modifies this`count, this`calls, this`sent, this`landed, this`results, data
      ensures Valid() && finished == (id !in calls) && count > old(count)
      ensures var c := old(calls)[id];
              var k := Fitting(c, CAPACITY - old(count));
              && 0 < k <= |c.buf| - c.done && count == old(count) + k && (finished <==> c.done + k == |c.buf|)
              && (|c.buf| <= ATOMIC ==> finished) && sent == old(sent) + Tagged(id, c.buf[c.done..c.done + k])
              && calls == (if finished then Awake(old(calls) - {id}, true)
                           else Awake(old(calls) - {id}, true)[id := Writer(c.buf, c.done + k, c.nonblock, false)])
              && results == if finished then old(results)[id := c.buf] else old(results)
      ensures finished && |old(calls)[id].buf| <= ATOMIC ==>
                landed == old(landed) + [Landed(|old(sent)|, old(calls)[id].buf)]
    {
      hide Ring, From, Values, Books;
      var c := calls[id];
      WriterOk(calls, count, readers, writers, sent, nextCall, landed, results, id);
      var space := CAPACITY - count;
      var chunk := Fitting(c, space);
      var src := c.buf[c.done..c.done + chunk];
      ghost var ring := Ring(data[..], head, count);
      StoreRing(src);
      ValuesTagged(sent, id, src);
      assert received + (ring + src) == (received + ring) + src;
      finished := c.done + chunk == |c.buf|;
      ChunkBooks(calls, count, readers, writers, sent, nextCall, landed, results, id, src, finished);
      if finished {
        if |c.buf| <= ATOMIC {
          landed := landed + [Landed(|sent|, c.buf)];
        }
        calls := Awake(calls - {id}, true);
        results := results[id := c.buf];
      } else {
        calls := Awake(calls - {id}, true)[id := Advanced(c, chunk)];
      }
      assert Accepts(c, src, finished);
      sent := sent + Tagged(id, src);
      count := count + chunk;
    }

    /** pipe_write from its test on, until it returns or parks.  The result counts
        exactly the bytes of the buffer that are in the stream, in order. */
    method WriteStep(id: nat, signal: bool) returns (out: Outcome)
      requires Valid() && id in calls && calls[id].Writer? && !calls[id].blocked
      modifies this`count, this`calls, this`sent, this`landed, this`results, data
      ensures Valid()
      ensures out == Waiting <==> id in calls
      ensures out == Waiting ==> calls[id].blocked && calls[id].Writer? && calls[id].buf == old(calls)[id].buf
      ensures out != Waiting ==>
                && id in results && results[id] <= old(calls)[id].buf
                && (out == Count(|results[id]|) || (results[id] == [] && !out.Count?))
      // a short write is in the stream whole and contiguous, or not at all
      ensures out != Waiting && |old(calls)[id].buf| <= ATOMIC ==>
                || results[id] == []
                || (results[id] == old(calls)[id].buf && |landed| > 0 && landed[|landed| - 1].buf == results[id])
      // what is accepted and what is answered follow from the state before
      ensures Written(old(calls), old(count), old(sent), old(results), id, readers, signal, calls, count, sent, results, out)
    {
      hide Ring, From, Values, Books, Going, Written, Awake, Need;
      WriterOk(calls, count, readers, writers, sent, nextCall, landed, results, id);
      ghost var c0 := calls[id];
      Starts(calls, count, sent, id, readers);
      while true
        invariant Valid() && id in calls && calls[id].Writer? && !calls[id].blocked && calls[id].buf == c0.buf
        invariant results == old(results) && Going(old(calls), old(count), old(sent), id, readers, calls, count, sent)
        decreases |c0.buf| - calls[id].done
      {
        var c := calls[id];
        ghost var count1, sent1, calls1 := count, sent, calls;
        WriterOk(calls, count, readers, writers, sent, nextCall, landed, results, id);
        if readers == 0 || CAPACITY - count < Need(c) {
          out := Refuse(id, signal);
          Stops(old(calls), old(count), old(sent), old(results), id, readers, signal, calls1, count, sent, calls, results, out);
          return;
        }
        var finished := PutChunk(id);
        GoesOn(old(calls), old(count), old(sent), old(results), id, readers, signal, calls1, count1, sent1, calls, count, sent,
               results, finished);
        if finished {
          return Count(|c.buf|);
        }
      }
    }

    /** pipe_write when there is no reader or not enough space. */
    method Refuse(id: nat, signal: bool) returns (out: Outcome)
      requires Valid() && id in calls && calls[id].Writer? && !calls[id].blocked && calls[id].done < |calls[id].buf|
      requires readers == 0 || CAPACITY - count < Need(calls[id])
      modifies this`calls, this`results
      ensures Valid()
      ensures Refused(old(calls)[id], readers, signal, out)
      ensures calls == if out == Waiting then old(calls)[id := Parked(old(calls)[id], true)] else old(calls) - {id}
      ensures results == if out == Waiting then old(results)
          else old(results)[id := old(calls)[id].buf[..old(calls)[id].done]]
    {
      hide Ring, From, Values, Books, Need;
      var c := calls[id];
      if readers == 0 {
        out := Ended(c, BrokenPipe);
      } else if c.nonblock {
        out := Ended(c, Again);
      } else if signal {
        out := Ended(c, Interrupted);
      } else {
        ParkBooks(calls, count, readers, writers, sent, nextCall, landed, results, id);
        calls := calls[id := Parked(c, true)];
        return Waiting;
      }
      Finish(id);
    }
  }

  /** The answer of a write that gets no further. */
  ghost predicate Refused(c: Call, readers: nat, signal: bool, out: Outcome)
    requires c.Writer?
  {
    if readers > 0 && !c.nonblock && !signal then out == Waiting
    else if c.done > 0 then out == Count(c.done)
    else out == if readers == 0 then BrokenPipe else if c.nonblock then Again else Interrupted
  }

  /** A write in the middle of its loop: untouched, or with the ring filled up. */
  ghost predicate Going(calls0: map<nat, Call>, count0: nat, sent0: seq<Sent>, id: nat, readers: nat, calls: map<nat, Call>,
                        count: nat, sent: seq<Sent>)
  {
    && id in calls0 && id in calls && calls0[id].Writer? && calls[id].Writer?
    && var c, d := calls0[id], calls[id].done;
       && c.done <= d < |c.buf| && count == count0 + (d - c.done) && sent == sent0 + Tagged(id, c.buf[c.done..d])
       && if d == c.done then calls == calls0
          else && count == CAPACITY && readers > 0 && |c.buf| > ATOMIC
               && calls == Awake(calls0 - {id}, true)[id := Writer(c.buf, d, c.nonblock, false)]
  }

  /** What one step of a write has done, from the state before it: bytes accepted, calls
      woken, the answer. */
  ghost predicate Written(calls0: map<nat, Call>, count0: nat, sent0: seq<Sent>, results0: map<nat, seq<byte>>, id: nat,
                          readers: nat, signal: bool, calls: map<nat, Call>, count: nat, sent: seq<Sent>,
                          results: map<nat, seq<byte>>, out: Outcome)
  {
    && id in calls0 && calls0[id].Writer? && calls0[id].done < |calls0[id].buf|
    && var c, k := calls0[id], count - count0;
       && Answered(c, 4096 - count0, readers, signal, k, out) && 0 <= k <= |c.buf| - c.done
       && sent == sent0 + Tagged(id, c.buf[c.done..c.done + k])
       && calls == (if k > 0 then Awake(calls0 - {id}, true) else calls0 - {id})
                   + (if out == Waiting then map[id := Writer(c.buf, c.done + k, c.nonblock, true)] else map[])
       && results == if out == Waiting then results0 else results0[id := c.buf[..c.done + k]]
  }

  lemma Starts(calls: map<nat, Call>, count: nat, sent: seq<Sent>, id: nat, readers: nat)
    requires id in calls && calls[id].Writer? && calls[id].done < |calls[id].buf|
    ensures Going(calls, count, sent, id, readers, calls, count, sent)
  {
    var c := calls[id];
    assert c.buf[c.done..c.done] == [] && Tagged(id, []) == [] && sent + [] == sent;
  }

  lemma Stops(calls0: map<nat, Call>, count0: nat, sent0: seq<Sent>, results0: map<nat, seq<byte>>, id: nat, readers: nat,
              signal: bool, calls1: map<nat, Call>, count: nat, sent: seq<Sent>, calls: map<nat, Call>,
              results: map<nat, seq<byte>>, out: Outcome)
    requires Going(calls0, count0, sent0, id, readers, calls1, count, sent) && count <= CAPACITY
    requires readers == 0 || CAPACITY - count < Need(calls1[id])
    requires !calls0[id].blocked && (|calls0[id].buf| <= ATOMIC ==> calls0[id].done == 0)
    requires Refused(calls1[id], readers, signal, out)
    requires calls == if out == Waiting then calls1[id := Parked(calls1[id], true)] else calls1 - {id}
    requires results == if out == Waiting then results0 else results0[id := calls1[id].buf[..calls1[id].done]]
    ensures Written(calls0, count0, sent0, results0, id, readers, signal, calls, count, sent, results, out)
  {
    hide Tagged, Awake;
    AwakeKeys(calls0 - {id}, true);
  }

  lemma AwakeKeys(calls: map<nat, Call>, reading: bool)
    ensures Awake(calls, reading).Keys == calls.Keys
  {
  }

  lemma GoesOn(calls0: map<nat, Call>, count0: nat, sent0: seq<Sent>, results0: map<nat, seq<byte>>, id: nat, readers: nat,
               signal: bool, calls1: map<nat, Call>, count1: nat, sent1: seq<Sent>, calls: map<nat, Call>, count: nat,
               sent: seq<Sent>, results: map<nat, seq<byte>>, finished: bool)
    requires Going(calls0, count0, sent0, id, readers, calls1, count1, sent1) && count1 <= CAPACITY && readers > 0
    requires CAPACITY - count1 >= Need(calls1[id]) && (|calls0[id].buf| <= ATOMIC ==> calls0[id].done == 0)
    requires var c := calls1[id];
             var k := Fitting(c, CAPACITY - count1);
             && 0 < k <= |c.buf| - c.done && count == count1 + k && (finished <==> c.done + k == |c.buf|)
             && sent == sent1 + Tagged(id, c.buf[c.done..c.done + k])
             && calls == (if finished then Awake(calls1 - {id}, true)
                          else Awake(calls1 - {id}, true)[id := Writer(c.buf, c.done + k, c.nonblock, false)])
             && results == if finished then results0[id := c.buf] else results0
    ensures calls1[id].done == calls0[id].done
    ensures !finished ==> Going(calls0, count0, sent0, id, readers, calls, count, sent)
    ensures finished ==>
              Written(calls0, count0, sent0, results0, id, readers, signal, calls, count, sent, results, Count(|calls0[id].buf|))
  {
    var c := calls0[id];
    assert c.buf[c.done..c.done] == [] && Tagged(id, []) == [] && sent0 + [] == sent0;
    assert c.buf[..|c.buf|] == c.buf;
    hide Tagged, Awake;
    AwakeKeys(calls0 - {id}, true);
  }

  /** How much of the rest of a write fits. */
  function Fitting(c: Call, space: nat): nat
    requires c.Writer? && c.done <= |c.buf|
  {
    if |c.buf| - c.done < space then |c.buf| - c.done else space
  }

  /** A write of at most 512 bytes is accepted whole or not at all, a longer one as far
      as there is space; nothing without a reader.  A call that accepted everything is
      done, else it waits if it may, and reports an error only if nothing was ever
      accepted. */
  ghost predicate Answered(c: Call, space: int, readers: nat, signal: bool, accepted: int, out: Outcome)
    requires c.Writer? && c.done < |c.buf|
  {
    var rest := |c.buf| - c.done;
    && accepted == (if readers == 0 || (|c.buf| <= 512 && space < rest) then 0 else if space < rest then space else rest)
    && match out
       case BrokenPipe => readers == 0 && c.done == 0
       case Again => readers > 0 && c.done + accepted == 0 && c.nonblock
       case Interrupted => readers > 0 && c.done + accepted == 0 && !c.nonblock && signal
       case Waiting => readers > 0 && accepted < rest && !c.nonblock && !signal
       case Count(n) =>
         && n == c.done + accepted > 0
         && (accepted == rest || readers == 0 || c.nonblock || signal)
  }

  lemma ParkBooks(calls: map<nat, Call>, count: nat, readers: nat, writers: nat, sent: seq<Sent>, nextCall: nat,
                  landed: seq<Landed>, results: map<nat, seq<byte>>, id: nat)
    requires Books(calls, count, readers, writers, sent, nextCall, landed, results) && id in calls && calls[id].Writer?
    requires !calls[id].nonblock
    requires count <= CAPACITY && calls[id].done <= |calls[id].buf| && CAPACITY - count < Need(calls[id]) && readers > 0
    ensures Books(calls[id := Parked(calls[id], true)], count, readers, writers, sent, nextCall, landed, results)
  {
    assert CallOk(calls[id], count, readers, writers, sent, id);
    ParkOk(calls, count, readers, writers, sent, nextCall, id);
  }

  // ---- every run -----------------------------------------------------------------

  datatype Step = TakeEnd(writeEnd: bool) | DropEnd(writeEnd: bool) | Enter(c: Call) | Go(id: nat, signal: bool) | Signal(id: nat)

  /** Any interleaving of calls, wake-ups, signals and reference changes. */
  method Run(steps: seq<Step>) returns (p: Pipe)
    requires forall s :: s in steps && s.Enter? ==> !s.c.blocked && (s.c.Writer? ==> s.c.done == 0)
    ensures p.Valid() && Consistent(p.received, p.sent, p.landed, p.calls, p.count, p.readers, p.writers)
  {
    p := new Pipe();
    hide Ring, From, Values, Books;
    var k := 0;
    while k < |steps|
      invariant p.Valid() && fresh(p) && fresh(p.data)
    {
      assert steps[k] in steps;
      match steps[k] {
        case TakeEnd(w) => p.Ref(w);
        case DropEnd(w) => p.Unref(w);
        case Enter(c) => var _, _ := p.Begin(c);
        case Go(id, signal) =>
          if id in p.calls && !p.calls[id].blocked {
            if p.calls[id].Reader? {
              var _, _ := p.ReadStep(id, signal);
            } else {
              var _ := p.WriteStep(id, signal);
            }
          }
        case Signal(id) =>
          if id in p.calls && p.calls[id].blocked {
            var _ := p.Interrupt(id);
          }
      }
      k := k + 1;
    }
    Spelled(p.received, p.sent, p.landed, p.results, p.calls, p.data[..], p.head, p.count, p.readers, p.writers,
            p.nextCall);
  }

  /** The promises of the pipe in one state of a run. */
  ghost predicate Consistent(received: seq<byte>, sent: seq<Sent>, landed: seq<Landed>, calls: map<nat, Call>,
                             count: nat, readers: nat, writers: nat)
  {
    // bytes read are a prefix of bytes written
    && received <= Values(sent)
    // short writes are contiguous
    && (forall k :: 0 <= k < |landed| ==> LandedOk(landed[k], Values(sent)))
    // a reader is parked only on an empty ring with a writer left
    && (forall id :: id in calls && calls[id].Reader? && calls[id].blocked ==> count == 0 && writers > 0)
    // a writer is parked only while space is short and a reader is left
    && (forall id :: id in calls && calls[id].Writer? && calls[id].blocked ==>
          calls[id].done <= |calls[id].buf| && count <= CAPACITY && CAPACITY - count < Need(calls[id]) && readers > 0)
  }

  lemma Spelled(received: seq<byte>, sent: seq<Sent>, landed: seq<Landed>, results: map<nat, seq<byte>>,
                calls: map<nat, Call>,
                data: seq<byte>, head: nat, count: nat, readers: nat, writers: nat, nextCall: nat)
    requires |data| == CAPACITY && received + Ring(data, head, count) == Values(sent) && count <= CAPACITY
    requires Books(calls, count, readers, writers, sent, nextCall, landed, results)
    ensures Consistent(received, sent, landed, calls, count, readers, writers)
  {
    forall id | id in calls && calls[id].blocked
      ensures calls[id].Reader? ==> count == 0 && writers > 0
      ensures calls[id].Writer? ==>
                calls[id].done <= |calls[id].buf| && CAPACITY - count < Need(calls[id]) && readers > 0
    {
      assert CallOk(calls[id], count, readers, writers, sent, id);
    }
  }

  /** `chunk` is the next piece of the buffer, the whole rest if it finishes. */
  predicate Accepts(c: Call, chunk: seq<byte>, finished: bool)
  {
    && c.Writer? && 0 < |chunk| && c.done + |chunk| <= |c.buf| && chunk == c.buf[c.done..c.done + |chunk|]
    && (finished <==> c.done + |chunk| == |c.buf|) && (|c.buf| <= ATOMIC ==> finished && c.done == 0)
  }

  function Advanced(c: Call, n: nat): Call
    requires c.Writer?
  {
    Writer(c.buf, c.done + n, c.nonblock, false)
  }

  lemma Stored(before: seq<byte>, after: seq<byte>, head: nat, count: nat, src: seq<byte>, tail: nat, first: nat)
    requires |before| == |after| == CAPACITY && head < CAPACITY && count + |src| <= CAPACITY
    requires tail == (head + count) % CAPACITY && first == (if CAPACITY - tail > |src| then |src| else CAPACITY - tail)
    requires forall k :: 0 <= k < CAPACITY ==>
               after[k] == if k < |src| - first then src[first + k] else if tail <= k < tail + first then src[k - tail]
                   else before[k]
    ensures forall p: nat {:trigger Slot(after, p)} :: head <= p < head + count ==> Slot(after, p) == Slot(before, p)
    ensures forall p: nat {:trigger Slot(after, p)} ::
              head + count <= p < head + count + |src| ==> Slot(after, p) == src[p - head - count]
  {
    Wrap(head + count);
    forall p: nat | head <= p < head + count + |src|
      ensures p < head + count ==> Slot(after, p) == Slot(before, p)
      ensures p >= head + count ==> Slot(after, p) == src[p - head - count]
    {
      Wrap(p);
    }
  }

  lemma ValuesTagged(sent: seq<Sent>, id: nat, src: seq<byte>)
    ensures Values(sent + Tagged(id, src)) == Values(sent) + src
  {
  }

  lemma WriterOk(calls: map<nat, Call>, count: nat, readers: nat, writers: nat, sent: seq<Sent>, nextCall: nat,
                 landed: seq<Landed>, results: map<nat, seq<byte>>, id: nat)
    requires Books(calls, count, readers, writers, sent, nextCall, landed, results) && id in calls && calls[id].Writer?
    ensures id < nextCall && calls[id].done < |calls[id].buf| && (|calls[id].buf| <= ATOMIC ==> calls[id].done == 0)
    ensures From(sent, id) == calls[id].buf[..calls[id].done]
  {
    assert CallOk(calls[id], count, readers, writers, sent, id);
  }

  lemma ResultsKept(results: map<nat, seq<byte>>, calls: map<nat, Call>, sent: seq<Sent>, id: nat, src: seq<byte>)
    requires id in calls && forall k :: k in results ==> k !in calls && From(sent, k) == results[k]
    ensures forall k :: k in results ==> From(sent + Tagged(id, src), k) == results[k]
  {
    forall k | k in results
      ensures From(sent + Tagged(id, src), k) == results[k]
    {
      FromTagged(sent, id, src, k);
    }
  }

  lemma LandedKept(landed: seq<Landed>, stream: seq<byte>, src: seq<byte>)
    requires forall k :: 0 <= k < |landed| ==> LandedOk(landed[k], stream)
    ensures forall k :: 0 <= k < |landed| ==> LandedOk(landed[k], stream + src)
  {
    forall k | 0 <= k < |landed|
      ensures LandedOk(landed[k], stream + src)
    {
      LandedGrows(landed[k], stream, src);
    }
  }

  lemma LandedNow(stream: seq<byte>, buf: seq<byte>)
    ensures LandedOk(Landed(|stream|, buf), stream + buf)
  {
  }

  lemma FromAdvanced(c: Call, sent: seq<Sent>, id: nat, src: seq<byte>)
    requires c.Writer? && c.done + |src| <= |c.buf| && src == c.buf[c.done..c.done + |src|]
    requires From(sent, id) == c.buf[..c.done]
    ensures From(sent + Tagged(id, src), id) == c.buf[..c.done + |src|]
  {
    hide From;
    FromTagged(sent, id, src, id);
  }

  /** The records after one more chunk of write `id`. */
  lemma ChunkBooks(calls: map<nat, Call>, count: nat, readers: nat, writers: nat, sent: seq<Sent>, nextCall: nat,
                   landed: seq<Landed>, results: map<nat, seq<byte>>, id: nat, src: seq<byte>, finished: bool)
    requires Books(calls, count, readers, writers, sent, nextCall, landed, results) && id in calls && calls[id].Writer?
    requires Accepts(calls[id], src, finished) && readers > 0 && count + |src| <= CAPACITY
    ensures var c, sent' := calls[id], sent + Tagged(id, src);
            if finished then
              Books(Awake(calls - {id}, true), count + |src|, readers, writers, sent', nextCall,
                    if |c.buf| <= ATOMIC then landed + [Landed(|sent|, c.buf)] else landed, results[id := c.buf])
            else
              Books(Awake(calls - {id}, true)[id := Advanced(c, |src|)], count + |src|, readers, writers, sent',
                    nextCall, landed, results)
  {
    hide From, Values;
    var c, sent' := calls[id], sent + Tagged(id, src);
    WriterOk(calls, count, readers, writers, sent, nextCall, landed, results, id);
    FromAdvanced(c, sent, id, src);
    ValuesTagged(sent, id, src);
    ResultsKept(results, calls, sent, id, src);
    LandedKept(landed, Values(sent), src);
    SentOk(calls, count, readers, writers, sent, nextCall, id, src);
    AwakeOk(calls - {id}, true, count, readers, writers, count + |src|, readers, writers, sent', nextCall);
    if finished {
      assert c.buf[..|c.buf|] == c.buf;
      if |c.buf| <= ATOMIC {
        assert src == c.buf;
        LandedNow(Values(sent), c.buf);
      }
    } else {
      assert CallOk(Advanced(c, |src|), count + |src|, readers, writers, sent', id);
    }
  }

  /** What a call that stops early returns: partial progress is success. */
  function Ended(c: Call, why: Outcome): Outcome
  {
    if c.Writer? && c.done > 0 then Count(c.done) else why
  }

  lemma SameOk(calls: map<nat, Call>, count: nat, readers: nat, writers: nat, count': nat, readers': nat, writers': nat,
               sent: seq<Sent>, nextCall: nat)
    requires AllOk(calls, count, readers, writers, sent, nextCall) && count' == count
    requires (readers > 0 ==> readers' > 0) && (writers > 0 ==> writers' > 0)
    ensures AllOk(calls, count', readers', writers', sent, nextCall)
  {
    forall id | id in calls
      ensures CallOk(calls[id], count', readers', writers', sent, id)
    {
      assert CallOk(calls[id], count, readers, writers, sent, id);
    }
  }

  /** The last writer goes: every parked reader is woken to see end of file. */
  lemma LastWriter(calls: map<nat, Call>, count: nat, readers: nat, sent: seq<Sent>, nextCall: nat)
    requires AllOk(calls, count, readers, 1, sent, nextCall)
    ensures AllOk(Awake(calls, true), count, readers, 0, sent, nextCall)
  {
    var calls' := Awake(calls, true);
    forall id | id in calls'
      ensures CallOk(calls'[id], count, readers, 0, sent, id)
    {
      assert CallOk(calls[id], count, readers, 1, sent, id);
    }
  }

  lemma LastReader(calls: map<nat, Call>, count: nat, writers: nat, sent: seq<Sent>, nextCall: nat)
    requires AllOk(calls, count, 1, writers, sent, nextCall)
    ensures AllOk(Awake(calls, false), count, 0, writers, sent, nextCall)
  {
    var calls' := Awake(calls, false);
    forall id | id in calls'
      ensures CallOk(calls'[id], count, 0, writers, sent, id)
    {
      assert CallOk(calls[id], count, 1, writers, sent, id);
    }
  }

  lemma ParkOk(calls: map<nat, Call>, count: nat, readers: nat, writers: nat, sent: seq<Sent>, nextCall: nat, id: nat)
    requires AllOk(calls, count, readers, writers, sent, nextCall) && id in calls
    requires CallOk(Parked(calls[id], true), count, readers, writers, sent, id)
    ensures AllOk(calls[id := Parked(calls[id], true)], count, readers, writers, sent, nextCall)
  {
  }

  /** Nobody is parked for reading while there are bytes. */
  lemma NobodyReads(calls: map<nat, Call>, count: nat, readers: nat, writers: nat, sent: seq<Sent>, nextCall: nat)
    requires AllOk(calls, count, readers, writers, sent, nextCall) && count > 0
    ensures forall id :: id in calls && calls[id].Reader? ==> !calls[id].blocked
  {
    forall id | id in calls && calls[id].Reader?
      ensures !calls[id].blocked
    {
      assert CallOk(calls[id], count, readers, writers, sent, id);
    }
  }
}
