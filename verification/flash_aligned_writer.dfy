/**
 * The aligned flash writer: an arbitrarily chunked byte stream is staged
 * in a fixed-capacity batch buffer, and a block is handed to the flash
 * sink callback only when the buffer is exactly full; an explicit flush
 * hands over the short remainder at the end of the stream.
 *
 * The sink callback `(src, offset, len) -> int` is the class FlashSink:
 * it logs every invocation and answers from a queue of statuses that the
 * flash driver will return (0 is success, anything else a failure).
 */
module FlashAlignedWriter {
  import opened Types

  /** One invocation of the sink: destination offset, the `len` bytes handed over, the status returned. */
  datatype SinkCall = SinkCall(offset: nat, data: seq<byte>, status: int)

  /** The flash programming callback (`flash_aligned_writer_cb_t`). */
  class FlashSink {
    /** Every invocation so far, in order. */
    ghost var calls: seq<SinkCall>
    /** The statuses the flash driver will answer to the next invocations; success once exhausted. */
    var replies: seq<int>

    constructor (replies: seq<int>)
      ensures this.replies == replies && calls == []
    {
      this.replies := replies;
      calls := [];
    }

    /** Programs `|src|` bytes of `src` at `offset` of the download slot. */
    method Program(src: seq<byte>, offset: nat) returns (status: int)
      modifies this
      ensures status == HeadOr(old(replies), 0) && replies == TailOf(old(replies))
      ensures calls == old(calls) + [SinkCall(offset, src, status)]
    {
      status := HeadOr(replies, 0);
      replies := TailOf(replies);
      calls := calls + [SinkCall(offset, src, status)];
    }
  }

  /** The status the sink gives its `i`-th next invocation from the queue `replies`. */
  function ReplyAt(replies: seq<int>, i: nat): int
  {
    if i < |replies| then replies[i] else 0
  }

  /** The queue `replies` after `n` invocations have taken their answers. */
  function After(replies: seq<int>, n: nat): seq<int>
  {
    if n < |replies| then replies[n..] else []
  }

  /** Each call of `log` got, in turn, the next answer of `replies`. */
  ghost predicate Answered(log: seq<SinkCall>, replies: seq<int>)
  {
    forall i :: 0 <= i < |log| ==> log[i].status == ReplyAt(replies, i)
  }

  /** One invocation takes the next answer of the queue. */
  lemma AnsweredOne(c: SinkCall, replies: seq<int>)
    requires c.status == HeadOr(replies, 0)
    ensures Answered([c], replies) && TailOf(replies) == After(replies, 1)
  {
  }

  /** Two runs of calls, each answered in turn, are answered in turn together. */
  lemma AnsweredConcat(a: seq<SinkCall>, b: seq<SinkCall>, replies: seq<int>)
    requires Answered(a, replies) && Answered(b, After(replies, |a|))
    ensures Answered(a + b, replies) && After(After(replies, |a|), |b|) == After(replies, |a + b|)
  {
    forall i | |a| <= i < |a + b| ensures (a + b)[i].status == ReplyAt(replies, i) {
      assert (a + b)[i] == b[i - |a|];
    }
  }

  /** The bytes one call stored: its data if it returned 0, nothing otherwise. */
  function Accepted(c: SinkCall): seq<byte>
  {
    if c.status == 0 then c.data else []
  }

  /** The bytes a sequence of sink calls stored: the data of the calls that returned 0, in order. */
  function Stored(log: seq<SinkCall>): seq<byte>
  {
    if log == [] then [] else Stored(log[..|log| - 1]) + Accepted(log[|log| - 1])
  }

  /**
   * Every call targets the offset just past what the earlier calls stored,
   * counting from `start`.
   */
  ghost predicate PlacedFrom(log: seq<SinkCall>, start: nat)
  {
    log == [] || (PlacedFrom(log[..|log| - 1], start) && log[|log| - 1].offset == start + |Stored(log[..|log| - 1])|)
  }

  /** Every call hands over exactly `capacity` bytes. */
  ghost predicate AllFull(log: seq<SinkCall>, capacity: nat)
  {
    forall i :: 0 <= i < |log| ==> |log[i].data| == capacity
  }

  /** Every call returned 0. */
  ghost predicate AllSucceeded(log: seq<SinkCall>)
  {
    forall i :: 0 <= i < |log| ==> log[i].status == 0
  }

  /** The number of calls that returned 0. */
  function Successes(log: seq<SinkCall>): nat
  {
    if log == [] then 0 else Successes(log[..|log| - 1]) + (if log[|log| - 1].status == 0 then 1 else 0)
  }

  /** What two consecutive runs of calls store is what the first stored followed by what the second stored. */
  lemma {:induction false} StoredConcat(a: seq<SinkCall>, b: seq<SinkCall>)
    ensures Stored(a + b) == Stored(a) + Stored(b)
    decreases |b|
  {
    if b != [] {
      var n := |b| - 1;
      assert (a + b)[..|a + b| - 1] == a + b[..n];
      StoredConcat(a, b[..n]);
    } else {
      assert a + b == a;
    }
  }

  /** Two runs of calls, each placed contiguously, placed one after the other are placed contiguously. */
  lemma {:induction false} PlacedConcat(a: seq<SinkCall>, b: seq<SinkCall>, start: nat)
    requires PlacedFrom(a, start) && PlacedFrom(b, start + |Stored(a)|)
    ensures PlacedFrom(a + b, start)
    decreases |b|
  {
    if b != [] {
      var n := |b| - 1;
      assert (a + b)[..|a + b| - 1] == a + b[..n];
      PlacedConcat(a, b[..n], start);
      StoredConcat(a, b[..n]);
    } else {
      assert a + b == a;
    }
  }

  lemma AllFullAppend(a: seq<SinkCall>, b: seq<SinkCall>, capacity: nat)
    requires AllFull(a, capacity) && AllFull(b, capacity)
    ensures AllFull(a + b, capacity)
  {
  }

  lemma AllSucceededAppend(a: seq<SinkCall>, b: seq<SinkCall>)
    requires AllSucceeded(a) && AllSucceeded(b)
    ensures AllSucceeded(a + b)
  {
  }

  /**
   * The bookkeeping of one turn of a write: a turn that consumed
   * `data[pos..next]` and made the calls `step`, after the calls `calls`
   * of the earlier turns, extends the logs by exactly what it did.
   */
  lemma {:induction false} ExtendRun(data: seq<byte>, pos: nat, next: nat, calls: seq<SinkCall>, step: seq<SinkCall>,
                  calls0: seq<SinkCall>, stored0: seq<byte>, consumed0: seq<byte>, offset0: nat, capacity: nat)
    requires pos <= next <= |data|
    requires offset0 == |stored0| && PlacedFrom(calls, offset0) && PlacedFrom(step, |stored0 + Stored(calls)|)
    requires AllFull(calls, capacity) && AllFull(step, capacity)
    ensures calls0 + calls + step == calls0 + (calls + step)
    ensures stored0 + Stored(calls) + Stored(step) == stored0 + Stored(calls + step)
    ensures consumed0 + data[..pos] + data[pos..next] == consumed0 + data[..next]
    ensures PlacedFrom(calls + step, offset0) && AllFull(calls + step, capacity)
  {
    AllFullAppend(calls, step, capacity);
    StoredConcat(calls, step);
    PlacedConcat(calls, step, offset0);
    assert data[..next] == data[..pos] + data[pos..next];
    SeqAssoc(calls0, calls, step);
    SeqAssoc(stored0, Stored(calls), Stored(step));
    SeqAssoc(consumed0, data[..pos], data[pos..next]);
  }

  /**
   * As long as every block handed to the sink was a full batch buffer, the
   * bytes stored are a whole number of batches: the offset stays a
   * multiple of the capacity, as the flash API demands.
   */
  lemma {:induction false} FullBlocksKeepAlignment(log: seq<SinkCall>, capacity: nat)
    requires AllFull(log, capacity)
    ensures |Stored(log)| == capacity * Successes(log)
  {
    if log != [] {
      var init := log[..|log| - 1];
      assert AllFull(init, capacity) by {
        forall i | 0 <= i < |init| ensures |init[i].data| == capacity {
          assert init[i] == log[i];
        }
      }
      FullBlocksKeepAlignment(init, capacity);
      if log[|log| - 1].status == 0 {
        assert capacity * Successes(log) == capacity * Successes(init) + capacity;
      }
    }
  }

  /**
   * The state of `flash_aligned_writer_t`: the batch buffer and its
   * capacity, the number of staged bytes, the write offset and the sink.
   */
  class Writer {
    const buf: array<byte>
    const capacity: nat
    var fill: nat
    var offset: nat
    const sink: FlashSink

    /** Every byte copied into the batch buffer since the writer was made. */
    ghost var consumed: seq<byte>
    /** The bytes the sink has accepted from this writer, in order. */
    ghost var stored: seq<byte>

    /**
     * The staged bytes follow what the sink has accepted, and the offset is
     * the number of bytes accepted.
     */
    ghost predicate Valid()
      reads this, buf
    {
      && 0 < capacity <= buf.Length
      && fill <= capacity
      && offset == |stored|
      && consumed == stored + buf[..fill]
    }

    /** `flash_aligned_writer_new`: an empty writer over `batchBuf`. */
    constructor (batchBuf: array<byte>, maxLen: nat, cb: FlashSink)
      requires 0 < maxLen <= batchBuf.Length
      ensures Valid()
      ensures buf == batchBuf && capacity == maxLen && sink == cb
      ensures fill == 0 && offset == 0 && consumed == [] && stored == []
    {
      buf := batchBuf;
      capacity := maxLen;
      sink := cb;
      fill := 0;
      offset := 0;
      consumed := [];
      stored := [];
    }

    /** The `memcpy` step of a write: appends `chunk` to the staged bytes. */
    method Stage(chunk: seq<byte>)
      requires Valid() && fill + |chunk| <= capacity
      modifies this, buf
      ensures Valid()
      ensures fill == old(fill) + |chunk| && buf[..fill] == old(buf[..fill]) + chunk
      ensures consumed == old(consumed) + chunk
      ensures stored == old(stored) && offset == old(offset)
    {
      forall k | 0 <= k < |chunk| {
        buf[fill + k] := chunk[k];
      }
      assert buf[..fill + |chunk|] == old(buf[..fill]) + chunk;
      fill := fill + |chunk|;
      consumed := consumed + chunk;
    }

    /**
     * One invocation of the sink with the staged bytes at the write offset;
     * only a success advances the offset and empties the batch buffer.
     */
    method Emit() returns (status: int, ghost call: SinkCall)
      requires Valid() && fill > 0
      modifies this, sink
      ensures Valid() && consumed == old(consumed)
      ensures call == SinkCall(old(offset), old(buf[..fill]), status)
      ensures status == HeadOr(old(sink.replies), 0) && sink.replies == TailOf(old(sink.replies))
      ensures sink.calls == old(sink.calls) + [call]
      ensures stored == old(stored) + Accepted(call)
      ensures status == 0 ==> fill == 0 && offset == old(offset) + old(fill)
      ensures status != 0 ==> fill == old(fill) && offset == old(offset)
    {
      var block := buf[..fill];
      status := sink.Program(block, offset);
      call := SinkCall(offset, block, status);
      if status == 0 {
        stored := stored + block;
        offset := offset + fill;
        fill := 0;
      }
    }

    /**
     * One turn of the copy loop of a write: copies as much of `data[pos..]`
     * as fits, and emits the batch buffer if it is then exactly full.
     */
    method CopyStep(data: seq<byte>, pos: nat) returns (next: nat, status: int, ghost call: seq<SinkCall>)
      requires Valid() && pos < |data|
      modifies this, buf, sink
      ensures Valid()
      ensures pos <= next <= |data| && consumed == old(consumed) + data[pos..next]
      ensures sink.calls == old(sink.calls) + call && stored == old(stored) + Stored(call)
      ensures Answered(call, old(sink.replies)) && sink.replies == After(old(sink.replies), |call|)
      ensures |call| <= 1 && AllFull(call, capacity) && PlacedFrom(call, old(offset))
      ensures call == [] ==> status == 0 && next == |data| && fill < capacity
      ensures call != [] ==> call[0].status == status
      ensures call != [] && status == 0 ==> fill == 0
      ensures status != 0 ==> fill == capacity && offset == call[0].offset && call[0].data == buf[..capacity]
      ensures next == pos ==> old(fill) == capacity
      ensures old(fill) == capacity ==> next == pos && call != [] && call[0].data == old(buf[..capacity])
    {
      var n := if capacity - fill < |data| - pos then capacity - fill else |data| - pos;
      Stage(data[pos..pos + n]);
      next := pos + n;
      call := [];
      status := 0;
      if fill == capacity {
        ghost var c;
        ghost var replies0 := sink.replies;
        status, c := Emit();
        call := [c];
        assert call[..0] == [];
        AnsweredOne(c, replies0);
      } else {
        assert After(sink.replies, 0) == sink.replies;
      }
    }

    /**
     * The loop invariant of a write that has consumed `data[..pos]` and made
     * the sink invocations `calls`, starting from a writer whose sink log,
     * consumed and stored bytes, offset, fill and batch buffer were
     * `calls0`, `consumed0`, `stored0`, `offset0`, `fill0` and `block0`.
     */
    ghost predicate Progress(data: seq<byte>, pos: nat, calls: seq<SinkCall>, calls0: seq<SinkCall>,
                             consumed0: seq<byte>, stored0: seq<byte>, offset0: nat, fill0: nat, block0: seq<byte>)
      reads this, buf, sink
    {
      && Valid()
      && pos <= |data| && offset0 == |stored0|
      && sink.calls == calls0 + calls && stored == stored0 + Stored(calls)
      && AllFull(calls, capacity) && AllSucceeded(calls) && PlacedFrom(calls, offset0)
      && consumed == consumed0 + data[..pos]
      && (calls == [] && pos == 0 ==> fill == fill0 && offset == offset0 && buf[..capacity] == block0)
      && (pos > 0 || calls != [] ==> fill < capacity)
      && (fill0 == capacity && calls == [] ==> pos == 0)
      && (fill0 == capacity && calls != [] ==> calls[0].offset == offset0 && calls[0].data == block0)
    }

    /**
     * One turn of the loop of a write, with the bookkeeping of the calls
     * made so far: on success the invariant holds again and the turn made
     * progress; on failure the outcome is the one the write returns.
     */
    method WriteTurn(data: seq<byte>, pos: nat, ghost calls: seq<SinkCall>, ghost calls0: seq<SinkCall>,
                     ghost consumed0: seq<byte>, ghost stored0: seq<byte>, ghost offset0: nat, ghost fill0: nat,
                     ghost block0: seq<byte>, ghost replies0: seq<int>)
      returns (next: nat, status: int, ghost calls': seq<SinkCall>)
      requires pos < |data| && Progress(data, pos, calls, calls0, consumed0, stored0, offset0, fill0, block0)
      requires Answered(calls, replies0) && sink.replies == After(replies0, |calls|)
      modifies this, buf, sink
      ensures Answered(calls', replies0) && sink.replies == After(replies0, |calls'|)
      ensures status == 0 ==> Progress(data, next, calls', calls0, consumed0, stored0, offset0, fill0, block0)
      ensures status == 0 ==> pos < next || (pos == next && old(fill) == capacity && fill < capacity)
      ensures status != 0 ==> Valid() && next <= |data| && consumed == consumed0 + data[..next]
      ensures status != 0 ==> sink.calls == calls0 + calls' && stored == stored0 + Stored(calls')
      ensures status != 0 ==> AllFull(calls', capacity) && PlacedFrom(calls', offset0)
      ensures status != 0 ==> calls' != [] && AllSucceeded(calls'[..|calls'| - 1])
      ensures status != 0 ==> calls'[|calls'| - 1].status == status && fill == capacity
      ensures status != 0 ==> offset == calls'[|calls'| - 1].offset && calls'[|calls'| - 1].data == buf[..capacity]
      ensures status != 0 && fill0 == capacity ==> calls'[0].offset == offset0 && calls'[0].data == block0
    {
      ghost var call;
      next, status, call := CopyStep(data, pos);
      AnsweredConcat(calls, call, replies0);
      ExtendRun(data, pos, next, calls, call, calls0, stored0, consumed0, offset0, capacity);
      calls' := calls + call;
      if status != 0 {
        assert calls'[..|calls'| - 1] == calls;
      } else {
        AllSucceededAppend(calls, call);
      }
    }

    /**
     * `flash_aligned_writer_write`: stages `data`, emitting every batch
     * that becomes exactly full; stops at the first failing emission and
     * returns its status, leaving the full batch staged and the rest of
     * `data` unconsumed. `calls` are the sink invocations made, `taken`
     * the number of bytes of `data` consumed.
     */
    method Write(data: seq<byte>) returns (status: int, ghost calls: seq<SinkCall>, ghost taken: nat)
      requires Valid()
      modifies this, buf, sink
      ensures Valid()
      ensures sink.calls == old(sink.calls) + calls && stored == old(stored) + Stored(calls)
      // each call got the flash driver's next answer
      ensures Answered(calls, old(sink.replies)) && sink.replies == After(old(sink.replies), |calls|)
      // every emission is a full batch placed right after the earlier ones,
      // so the offset advances by whole batches only
      ensures AllFull(calls, capacity) && PlacedFrom(calls, old(offset))
      ensures offset == old(offset) + capacity * Successes(calls)
      // all but a failing last one succeeded
      ensures calls != [] ==> AllSucceeded(calls[..|calls| - 1])
      ensures taken <= |data| && consumed == old(consumed) + data[..taken]
      // success: the whole chunk is consumed
      ensures status == 0 ==> taken == |data| && AllSucceeded(calls)
      ensures status == 0 && (data != [] || old(fill) < capacity) ==> fill < capacity
      // failure: the failing status is returned verbatim and the full batch stays staged
      ensures status != 0 ==> calls != [] && calls[|calls| - 1].status == status
      ensures status != 0 ==> fill == capacity && offset == calls[|calls| - 1].offset
      ensures status != 0 ==> calls[|calls| - 1].data == buf[..capacity]
      // after a failed emission, the same batch is re-emitted at the same offset first
      ensures old(fill) == capacity && data != [] ==>
        calls != [] && calls[0].offset == old(offset) && calls[0].data == old(buf[..capacity])
      // an empty chunk makes no call, even on a batch left full by a failure
      ensures data == [] ==> status == 0 && calls == [] && fill == old(fill) && offset == old(offset)
    {
      ghost var calls0, consumed0, stored0 := sink.calls, consumed, stored;
      ghost var fill0, offset0, block0 := fill, offset, buf[..capacity];
      ghost var replies0 := sink.replies;
      assert After(replies0, 0) == replies0;
      assert calls0 + [] == calls0 && stored0 + Stored([]) == stored0 && consumed0 + data[..0] == consumed0;
      var pos := 0;
      calls := [];
      while pos < |data|
        invariant Progress(data, pos, calls, calls0, consumed0, stored0, offset0, fill0, block0)
        invariant Answered(calls, replies0) && sink.replies == After(replies0, |calls|)
        invariant data == [] ==> calls == []
        decreases |data| - pos, if fill == capacity then 1 else 0
      {
        var next;
        next, status, calls := WriteTurn(data, pos, calls, calls0, consumed0, stored0, offset0, fill0, block0, replies0);
        if status != 0 {
          taken := next;
          FullBlocksKeepAlignment(calls, capacity);
          return;
        }
        pos := next;
      }
      assert data[..pos] == data;
      status, taken := 0, pos;
      FullBlocksKeepAlignment(calls, capacity);
    }

    /**
     * `flash_aligned_writer_flush`: hands the staged remainder, if any, to
     * the sink; on failure returns its status and leaves the state as it was.
     */
    method Flush() returns (status: int, ghost calls: seq<SinkCall>)
      requires Valid()
      modifies this, sink
      ensures Valid() && consumed == old(consumed)
      ensures sink.calls == old(sink.calls) + calls && stored == old(stored) + Stored(calls)
      ensures old(fill) == 0 ==> status == 0 && calls == [] && sink.replies == old(sink.replies)
      ensures old(fill) != 0 ==> status == HeadOr(old(sink.replies), 0) && sink.replies == TailOf(old(sink.replies))
      ensures old(fill) != 0 ==> calls == [SinkCall(old(offset), old(buf[..fill]), status)]
      ensures PlacedFrom(calls, old(offset))
      ensures status == 0 ==> fill == 0 && stored == consumed && offset == |consumed|
      ensures status != 0 ==> fill == old(fill) && offset == old(offset)
    {
      if fill == 0 {
        return 0, [];
      }
      ghost var c;
      status, c := Emit();
      calls := [c];
      assert calls[..0] == [];
    }
  }
}
