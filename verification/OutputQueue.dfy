/**
 The write side of src/libubox/ustream.c, on values: bytes the link does not take at once are
 buffered, and sent later, a piece at a time, as the link takes them.
 */
module OutputQueue {
  import opened ChunkQueue

  /** What the allocator returns from now on; nothing when the sequence is used up. */
  type Allocs = seq<seq<Byte>>

  predicate GoodAllocs(a: Allocs, len: nat) { forall k :: 0 <= k < |a| ==> |a[k]| == len }

  /** ustream_prepare_buf, with what is then left to allocate. */
  function PrepareFrom(l: List, len: int, allocs: Allocs): (bool, List, Allocs)
    requires Sound(l) && GoodAllocs(allocs, l.bufferLen)
  {
    var mem := if allocs != [] then allocs[0] else seq(l.bufferLen, _ => 0);
    var (ok, l1) := Prepare(l, len, allocs != [], mem);
    (ok, l1, if |l1.chunks| > |l.chunks| then allocs[1..] else allocs)
  }

  /** One copy into the chunk being filled. */
  function Put(l: List, data: seq<Byte>): List
    requires Sound(l) && l.dt >= 0 && l.chunks[l.dt].tail + |data| <= l.bufferLen
  {
    var c := l.chunks[l.dt];
    var c' := c.(mem := c.mem[..c.tail] + data + c.mem[c.tail + |data|..], tail := c.tail + |data|);
    l.(chunks := l.chunks[l.dt := c'], dataBytes := l.dataBytes + |data|)
  }

  /** The same room with `data` lying in it, not yet part of the queue. */
  function Lying(l: List, data: seq<Byte>): List
    requires Sound(l) && l.dt >= 0 && l.chunks[l.dt].tail + |data| <= l.bufferLen
  {
    var c := l.chunks[l.dt];
    l.(chunks := l.chunks[l.dt := c.(mem := c.mem[..c.tail] + data + c.mem[c.tail + |data|..])])
  }

  /** Reading into the room and then filling the read side is one copy. */
  lemma FillIsPut(l: List, data: seq<Byte>)
    requires Sound(l) && l.dt >= 0 && l.chunks[l.dt].tail + |data| <= l.bufferLen
    ensures Sound(Lying(l, data)) && |data| <= |Spare(Lying(l, data).chunks, l.dt)|
    ensures Lying(l, data).dt == l.dt && FillRead(Lying(l, data), |data|) == Put(l, data)
  {
    hide Bytes;
    SpareOne(Lying(l, data).chunks, l.dt);
    assert l.chunks[l.dt := Lying(l, data).chunks[l.dt]][l.dt := Put(l, data).chunks[l.dt]] == Put(l, data).chunks;
  }

  /** ustream_write_buffered: how much was taken, and the list then. */
  function WriteBuffered(l: List, data: seq<Byte>, allocs: Allocs): (nat, List, Allocs)
    requires Sound(l) && GoodAllocs(allocs, l.bufferLen)
    decreases |data|
  {
    if data == [] then (0, l, allocs)
    else
      PrepareFromKeeps(l, |data|, allocs);
      var (ok, l1, allocs1) := PrepareFrom(l, |data|, allocs);
      if !ok then (0, l1, allocs1)
      else
        var n := Min(|data|, l.bufferLen - l1.chunks[l1.dt].tail);
        PutKeeps(l1, data[..n]);
        var (wr, l2, allocs2) := WriteBuffered(Put(l1, data[..n]), data[n..], allocs1);
        (n + wr, l2, allocs2)
  }

  lemma PrepareFromKeeps(l: List, len: int, allocs: Allocs)
    requires Sound(l) && GoodAllocs(allocs, l.bufferLen)
    ensures var (ok, l', allocs') := PrepareFrom(l, len, allocs);
            && Sound(l') && Held(l') == Held(l) && GoodAllocs(allocs', l.bufferLen)
            && l' == l.(chunks := l'.chunks, dt := l'.dt)
            && (ok ==> l'.dt >= 0 && l'.chunks[l'.dt].tail < l.bufferLen)
  {
    hide Prepare;
    var mem := if allocs != [] then allocs[0] else seq(l.bufferLen, _ => 0);
    PrepareKeeps(l, len, allocs != [], mem);
    PrepareAllocates(l, len, allocs != [], mem);
  }

  lemma PrepareAllocates(l: List, len: int, allocOk: bool, mem: seq<Byte>)
    requires Sound(l) && |mem| == l.bufferLen
    ensures |Prepare(l, len, allocOk, mem).1.chunks| > |l.chunks| ==> allocOk
  {
  }

  lemma PutKeeps(l: List, data: seq<Byte>)
    requires Sound(l) && l.dt >= 0 && l.chunks[l.dt].tail + |data| <= l.bufferLen && data != []
    ensures var l' := Put(l, data);
            && Sound(l') && Held(l') == Held(l) + data
            && l' == l.(chunks := l'.chunks, dataBytes := l.dataBytes + |data|)
  {
    hide Bytes;
    var c := l.chunks[l.dt];
    var c' := Put(l, data).chunks[l.dt];
    BytesUpdate(l.chunks, l.dt, c');
    BytesEmpty(l.chunks[l.dt + 1..]);
    assert Live(c') == Live(c) + data;
  }

  lemma {:induction false} WriteBufferedKeeps(l: List, data: seq<Byte>, allocs: Allocs)
    requires Valid(l) && GoodAllocs(allocs, l.bufferLen)
    ensures var (wr, l', _) := WriteBuffered(l, data, allocs);
            && 0 <= wr <= |data| && Valid(l') && Held(l') == Held(l) + data[..wr]
            && l' == l.(chunks := l'.chunks, dt := l'.dt, dataBytes := l'.dataBytes)
    decreases |data|
  {
    hide PrepareFrom, Put, Bytes;
    if data != [] {
      PrepareFromKeeps(l, |data|, allocs);
      var (ok, l1, allocs1) := PrepareFrom(l, |data|, allocs);
      if ok {
        var n := Min(|data|, l.bufferLen - l1.chunks[l1.dt].tail);
        PutKeeps(l1, data[..n]);
        WriteBufferedKeeps(Put(l1, data[..n]), data[n..], allocs1);
        var wr := WriteBuffered(Put(l1, data[..n]), data[n..], allocs1).0;
        assert data[..n] + data[n..][..wr] == data[..n + wr];
      }
    }
  }

  /** What one write system call answers. */
  datatype Result = Wrote(n: nat) | Interrupted | Again | Broken

  /** The answers during one call of the stream's `write` callback; when they run out, Again. */
  type Reply = seq<Result>

  /** ustream_fd_write: how many of `len` bytes left. A failed call may have sent some before it failed. */
  function Left(r: Reply, len: nat): (n: nat)
    ensures n <= len
    decreases |r|
  {
    if len == 0 || r == [] then 0
    else match r[0]
      case Wrote(n) => Min(n, len) + Left(r[1..], len - Min(n, len))
      case Interrupted => Left(r[1..], len)
      case Again => 0
      case Broken => 0
  }

  /** ... and whether it failed. */
  predicate Fails(r: Reply, len: nat)
    decreases |r|
  {
    if len == 0 || r == [] then false
    else match r[0]
      case Wrote(n) => Fails(r[1..], len - Min(n, len))
      case Interrupted => Fails(r[1..], len)
      case Again => false
      case Broken => true
  }

  /** The call has not ended before answer `j`: the link took bytes, or the call was interrupted. */
  predicate GoesOn(r: Reply, j: nat)
    requires j <= |r|
  {
    forall i :: 0 <= i < j ==> r[i].Wrote? || r[i].Interrupted?
  }

  /** The bytes that the first `j` answers ask for. */
  function Offered(r: Reply, j: nat): nat
    requires j <= |r|
  {
    if j == 0 then 0 else Offered(r, j - 1) + if r[j - 1].Wrote? then r[j - 1].n else 0
  }

  /** The link breaks before `len` bytes have left. */
  predicate Breaks(r: Reply, len: nat) {
    exists j :: 0 <= j < |r| && r[j].Broken? && GoesOn(r, j) && Offered(r, j) < len
  }

  lemma {:induction false} OfferedRest(r: Reply, j: nat)
    requires 0 < j <= |r|
    ensures Offered(r, j) == Offered(r[1..], j - 1) + if r[0].Wrote? then r[0].n else 0
    decreases j
  {
    if j > 1 {
      OfferedRest(r, j - 1);
      assert r[1..][j - 2] == r[j - 1];
    }
  }

  lemma GoesOnRest(r: Reply, j: nat)
    requires 0 < j <= |r|
    ensures GoesOn(r, j) <==> (r[0].Wrote? || r[0].Interrupted?) && GoesOn(r[1..], j - 1)
  {
    if (r[0].Wrote? || r[0].Interrupted?) && GoesOn(r[1..], j - 1) {
      forall i | 0 <= i < j
        ensures r[i].Wrote? || r[i].Interrupted?
      {
        assert i > 0 ==> r[1..][i - 1] == r[i];
      }
    }
  }

  /** A write call fails exactly if the link breaks before everything has left. */
  lemma {:induction false} FailsIff(r: Reply, len: nat)
    ensures Fails(r, len) <==> Breaks(r, len)
    decreases |r|
  {
    hide Offered, GoesOn;
    if r != [] && len > 0 {
      var first := if r[0].Wrote? then r[0].n else 0;
      var left := if first >= len then 0 else len - first;
      FailsIff(r[1..], left);
      if Breaks(r, len) {
        var j :| 0 <= j < |r| && r[j].Broken? && GoesOn(r, j) && Offered(r, j) < len;
        if j > 0 {
          OfferedRest(r, j);
          GoesOnRest(r, j);
          assert r[1..][j - 1].Broken?;
        }
      }
      if Breaks(r[1..], left) && (r[0].Wrote? || r[0].Interrupted?) {
        var j :| 0 <= j < |r[1..]| && r[1..][j].Broken? && GoesOn(r[1..], j) && Offered(r[1..], j) < left;
        OfferedRest(r, j + 1);
        GoesOnRest(r, j + 1);
        assert r[j + 1].Broken?;
      }
      if r[0].Broken? {
        AtOnce(r, len);
      }
    }
  }

  lemma AtOnce(r: Reply, len: nat)
    requires r != [] && len > 0 && r[0].Broken?
    ensures Breaks(r, len)
  {
    assert Offered(r, 0) == 0 && GoesOn(r, 0);
  }

  /** How many answers are heard before the call ends of itself. */
  function Heard(r: Reply): (j: nat)
    ensures j <= |r| && GoesOn(r, j) && (j < |r| ==> r[j].Again? || r[j].Broken?)
  {
    if r == [] || r[0].Again? || r[0].Broken? then 0
    else
      GoesOnRest(r, 1 + Heard(r[1..]));
      1 + Heard(r[1..])
  }

  /** What leaves is what the answers ask for until the call ends, and no more than there is. */
  lemma {:induction false} LeftIs(r: Reply, len: nat)
    ensures Left(r, len) == Min(Offered(r, Heard(r)), len)
    decreases |r|
  {
    hide GoesOn;
    if r != [] {
      if Heard(r) > 0 {
        OfferedRest(r, Heard(r));
        LeftIs(r[1..], len);
        if r[0].Wrote? {
          LeftIs(r[1..], len - Min(r[0].n, len));
        }
      }
    }
  }

  /** `delivered` is all that left through the callback since the stream began. */
  datatype Out = Out(l: List, delivered: seq<Byte>, writeError: bool)

  predicate GoodOut(o: Out) { Valid(o.l) }

  /** ustream_write: its result (the count accepted, -1 on an error) and the stream then. */
  function Write(o: Out, data: seq<Byte>, reply: Reply, allocs: Allocs): (int, Out)
    requires GoodOut(o) && GoodAllocs(allocs, o.l.bufferLen)
  {
    if o.writeError then (0, o)
    else if o.l.dataBytes == 0 then
      var n := Left(reply, |data|);
      var o1 := o.(delivered := o.delivered + data[..n]);
      if Fails(reply, |data|) then (-1, o1.(writeError := true))
      else if n == |data| then (n, o1)
      else
        var (wr, l, _) := WriteBuffered(o.l, data[n..], allocs);
        (n + wr, o1.(l := l))
    else
      var (wr, l, _) := WriteBuffered(o.l, data, allocs);
      (wr, o.(l := l))
  }

  /** The loop of ustream_write_pending; the link takes nothing more once the replies are used up. */
  function Flush(o: Out, replies: seq<Reply>): Out
    requires GoodOut(o)
    decreases |Held(o.l)|
  {
    if o.l.chunks == [] || o.l.dataBytes == 0 || replies == [] then o
    else
      HeadHolds(o.l);
      var c := o.l.chunks[0];
      var max := c.tail - c.data;
      var n := Left(replies[0], max);
      var o1 := o.(delivered := o.delivered + Live(c)[..n]);
      if Fails(replies[0], max) then o1.(writeError := true)
      else if n == 0 then o
      else
        SendKeeps(o, n);
        if n < max then Sent(o, n) else Flush(Sent(o, n), replies[1..])
  }

  /** The first `n` bytes of the first chunk leave the queue for the link. */
  function Sent(o: Out, n: nat): Out
    requires GoodOut(o) && o.l.chunks != [] && 0 < n <= |Live(o.l.chunks[0])|
  {
    TakeKeeps(o.l, n);
    Out(Consume(o.l, n), o.delivered + Live(o.l.chunks[0])[..n], o.writeError)
  }

  lemma SendKeeps(o: Out, n: nat)
    requires GoodOut(o) && o.l.chunks != [] && 0 < n <= |Live(o.l.chunks[0])|
    ensures var o' := Sent(o, n);
            && GoodOut(o') && o'.writeError == o.writeError && o'.l.bufferLen == o.l.bufferLen
            && o'.delivered + Held(o'.l) == o.delivered + Held(o.l) && o.delivered <= o'.delivered
            && |Held(o'.l)| < |Held(o.l)|
  {
    hide Bytes, Consume;
    TakeKeeps(o.l, n);
    ConsumeKeeps(o.l, n);
    assert Held(o.l) == Held(o.l)[..n] + Held(o.l)[n..];
  }

  /** ustream_write_pending: its result (nothing left to send) and the stream then. */
  function WritePending(o: Out, replies: seq<Reply>): (bool, Out)
    requires GoodOut(o)
  {
    if o.writeError then (false, o)
    else
      var o1 := Flush(o, replies);
      (o1.l.dataBytes == 0, o1)
  }

  lemma TakeKeeps(l: List, n: nat)
    requires Valid(l) && l.chunks != [] && 0 < n <= |Live(l.chunks[0])|
    ensures n <= |Held(l)| && Held(l)[..n] == Live(l.chunks[0])[..n]
    ensures Valid(Consume(l, n)) && Held(Consume(l, n)) == Held(l)[n..]
  {
    hide Bytes, Consume;
    HeldHead(l);
    ConsumeKeeps(l, n);
  }

  /** Sending moves bytes from the front of the queue to the link, and loses none. */
  lemma {:induction false} FlushKeeps(o: Out, replies: seq<Reply>)
    requires GoodOut(o) && !o.writeError
    ensures var o' := Flush(o, replies);
            && GoodOut(o') && o.delivered <= o'.delivered <= o.delivered + Held(o.l)
            && (!o'.writeError ==> o'.delivered + Held(o'.l) == o.delivered + Held(o.l))
    decreases |Held(o.l)|
  {
    hide Bytes, Sent;
    if o.l.chunks != [] && o.l.dataBytes != 0 && replies != [] {
      HeadHolds(o.l);
      var c := o.l.chunks[0];
      var n := Left(replies[0], c.tail - c.data);
      if n > 0 {
        HeldHead(o.l);
        SendKeeps(o, n);
        assert Live(c)[..n] <= Held(o.l);
        if !Fails(replies[0], c.tail - c.data) && n == c.tail - c.data {
          FlushKeeps(Sent(o, n), replies[1..]);
        }
      }
    }
  }

  lemma WriteKeeps(o: Out, data: seq<Byte>, reply: Reply, allocs: Allocs)
    requires GoodOut(o) && GoodAllocs(allocs, o.l.bufferLen) && !o.writeError
    ensures var (r, o') := Write(o, data, reply, allocs);
            && GoodOut(o') && o'.l.bufferLen == o.l.bufferLen
            && (r == -1 <==> o'.writeError) && -1 <= r <= |data|
            && (!o'.writeError ==> o'.delivered + Held(o'.l) == o.delivered + Held(o.l) + data[..r])
            && o.delivered <= o'.delivered <= o.delivered + Held(o.l) + data
  {
    hide Bytes, WriteBuffered;
    if o.l.dataBytes == 0 {
      var n := Left(reply, |data|);
      WriteBufferedKeeps(o.l, data[n..], allocs);
      var wr := WriteBuffered(o.l, data[n..], allocs).0;
      assert data[..n] + data[n..][..wr] == data[..n + wr];
      assert o.delivered + data[..n] <= o.delivered + data;
    } else {
      WriteBufferedKeeps(o.l, data, allocs);
    }
  }

  // ----- whole runs -----

  datatype Op = OpWrite(data: seq<Byte>, reply: Reply, allocs: Allocs) | OpPending(replies: seq<Reply>)

  predicate GoodOps(ops: seq<Op>, len: nat) {
    forall k :: 0 <= k < |ops| ==> ops[k].OpWrite? ==> GoodAllocs(ops[k].allocs, len)
  }

  function Step(o: Out, op: Op): Out
    requires GoodOut(o) && GoodOps([op], o.l.bufferLen)
  {
    assert op == [op][0];
    match op
    case OpWrite(data, reply, allocs) => Write(o, data, reply, allocs).1
    case OpPending(replies) => WritePending(o, replies).1
  }

  /** The bytes one step took over from its caller, by the count it returned. */
  function Accepted(o: Out, op: Op): seq<Byte>
    requires GoodOut(o) && GoodOps([op], o.l.bufferLen)
  {
    assert op == [op][0];
    match op
    case OpWrite(data, reply, allocs) =>
      var r := Write(o, data, reply, allocs).0;
      if 0 <= r <= |data| then data[..r] else []
    case OpPending(_) => []
  }

  predicate StepGood(o: Out, op: Op)
    requires GoodOut(o) && GoodOps([op], o.l.bufferLen)
  {
    GoodOut(Step(o, op)) && Step(o, op).l.bufferLen == o.l.bufferLen
  }

  lemma FlushShape(o: Out, replies: seq<Reply>)
    requires GoodOut(o)
    ensures Flush(o, replies).l.bufferLen == o.l.bufferLen
    decreases |Held(o.l)|
  {
    hide Bytes, Sent;
    if o.l.chunks != [] && o.l.dataBytes != 0 && replies != [] {
      HeadHolds(o.l);
      var c := o.l.chunks[0];
      var n := Left(replies[0], c.tail - c.data);
      if n > 0 {
        SendKeeps(o, n);
        if !Fails(replies[0], c.tail - c.data) && n == c.tail - c.data {
          FlushShape(Sent(o, n), replies[1..]);
        }
      }
    }
  }

  lemma StepKeeps(o: Out, op: Op)
    requires GoodOut(o) && GoodOps([op], o.l.bufferLen)
    ensures StepGood(o, op)
    ensures var o' := Step(o, op);
            && (o.writeError ==> o' == o)
            && (!o'.writeError ==> !o.writeError && o'.delivered + Held(o'.l) == o.delivered + Held(o.l) + Accepted(o, op))
            && o.delivered <= o'.delivered
  {
    hide Bytes, Write, Laid, Flush;
    assert op == [op][0];
    if o.writeError {
      ErrorStops(o, op);
    } else {
      match op
      case OpWrite(data, reply, allocs) => WriteKeeps(o, data, reply, allocs);
      case OpPending(replies) =>
        FlushKeeps(o, replies);
        FlushShape(o, replies);
    }
  }

  lemma ErrorStops(o: Out, op: Op)
    requires GoodOut(o) && GoodOps([op], o.l.bufferLen) && o.writeError
    ensures Step(o, op) == o && Accepted(o, op) == []
  {
  }

  function Run(o: Out, ops: seq<Op>): (Out, seq<Byte>)
    requires GoodOut(o) && GoodOps(ops, o.l.bufferLen)
    decreases |ops|
  {
    if ops == [] then (o, [])
    else
      assert GoodOps([ops[0]], o.l.bufferLen) && GoodOps(ops[1..], o.l.bufferLen);
      StepKeeps(o, ops[0]);
      var (o', accepted) := Run(Step(o, ops[0]), ops[1..]);
      (o', Accepted(o, ops[0]) + accepted)
  }

  /**
   Over any interleaving of writes and flushes, however short the link's writes are and whenever
   allocation fails: while no write error has occurred, what was delivered followed by what is
   still buffered is the concatenation of the accepted prefixes. After an error nothing moves.
   */
  lemma {:induction false} RunKeeps(o: Out, ops: seq<Op>)
    requires GoodOut(o) && GoodOps(ops, o.l.bufferLen)
    ensures var (o', accepted) := Run(o, ops);
            && GoodOut(o') && o.delivered <= o'.delivered
            && (o.writeError ==> o' == o && accepted == [])
            && (!o'.writeError ==> o'.delivered + Held(o'.l) == o.delivered + Held(o.l) + accepted)
    decreases |ops|
  {
    hide Bytes, Step, Accepted;
    if ops != [] {
      assert GoodOps([ops[0]], o.l.bufferLen) && GoodOps(ops[1..], o.l.bufferLen);
      StepKeeps(o, ops[0]);
      RunKeeps(Step(o, ops[0]), ops[1..]);
      if o.writeError {
        ErrorStops(o, ops[0]);
      }
    }
  }

  // ----- how much is taken and sent -----

  /** Where chunks may be had, everything is taken: no limit on them, and an allocator that is not used up. */
  lemma {:induction false} WriteBufferedAll(l: List, data: seq<Byte>, allocs: Allocs)
    requires Valid(l) && GoodAllocs(allocs, l.bufferLen) && l.maxBuffers <= 0 && |data| <= |allocs|
    ensures WriteBuffered(l, data, allocs).0 == |data|
    decreases |data|
  {
    hide Bytes, Put;
    if data != [] {
      PrepareFromKeeps(l, |data|, allocs);
      PrepareSure(l, |data|, allocs);
      var (ok, l1, allocs1) := PrepareFrom(l, |data|, allocs);
      var n := Min(|data|, l.bufferLen - l1.chunks[l1.dt].tail);
      PutKeeps(l1, data[..n]);
      WriteBufferedAll(Put(l1, data[..n]), data[n..], allocs1);
    }
  }

  lemma PrepareSure(l: List, len: int, allocs: Allocs)
    requires Sound(l) && GoodAllocs(allocs, l.bufferLen) && l.maxBuffers <= 0 && allocs != []
    ensures PrepareFrom(l, len, allocs).0 && |PrepareFrom(l, len, allocs).2| >= |allocs| - 1
  {
    hide ShouldMove;
  }

  /**
   What one write does: with nothing waiting, what the link takes leaves at once, and the rest is buffered; behind
   something that waits, all of it is; and it fails exactly if the link breaks before all has left.
   */
  lemma WriteIs(o: Out, data: seq<Byte>, reply: Reply, allocs: Allocs)
    requires GoodOut(o) && GoodAllocs(allocs, o.l.bufferLen) && !o.writeError
    ensures var (r, o') := Write(o, data, reply, allocs);
            var n := if Held(o.l) == [] then Left(reply, |data|) else 0;
            && o'.delivered == o.delivered + data[..n]
            && (o'.writeError <==> Held(o.l) == [] && Breaks(reply, |data|))
            && GoodOut(o') && (!o'.writeError ==> n <= r <= |data| && Held(o'.l) == Held(o.l) + data[n..r])
            && (!o'.writeError && o.l.maxBuffers <= 0 && |data| <= |allocs| ==> r == |data|)
  {
    hide Bytes, WriteBuffered, Breaks;
    FailsIff(reply, |data|);
    var n := if Held(o.l) == [] then Left(reply, |data|) else 0;
    assert data[0..] == data;
    WriteBufferedKeeps(o.l, data[n..], allocs);
    var wr := WriteBuffered(o.l, data[n..], allocs).0;
    assert data[n..][..wr] == data[n..n + wr];
    if o.l.maxBuffers <= 0 && |data| <= |allocs| {
      WriteBufferedAll(o.l, data[n..], allocs);
    }
  }

  /** How much each chunk holds. */
  function Lens(l: List): (lens: seq<nat>)
    requires Sound(l)
    ensures |lens| == |l.chunks|
  {
    seq(|l.chunks|, i requires 0 <= i < |l.chunks| => |Live(l.chunks[i])|)
  }

  /** The link breaks at a chunk, having taken all before it. */
  predicate BreaksAt(lens: seq<nat>, replies: seq<Reply>) {
    exists k :: 0 <= k < |replies| && k < |lens| && Breaks(replies[k], lens[k]) && TakesAll(lens, replies, k)
  }

  predicate TakesAll(lens: seq<nat>, replies: seq<Reply>, k: nat)
    requires k <= |lens| && k <= |replies|
  {
    forall i :: 0 <= i < k ==> Left(replies[i], lens[i]) == lens[i]
  }

  /** With the first chunk sent, the lengths are those of the others, and of it again, empty, if it is recycled. */
  lemma SentLens(o: Out)
    requires GoodOut(o) && o.l.chunks != [] && o.l.dataBytes != 0
    ensures var c := o.l.chunks[0];
            var n := c.tail - c.data;
            && n == |Live(c)| > 0 && GoodOut(Sent(o, n))
            && (Lens(Sent(o, n).l) == Lens(o.l)[1..] || Lens(Sent(o, n).l) == Lens(o.l)[1..] + [0])
  {
    hide Bytes;
    HeadHolds(o.l);
    HeldHead(o.l);
    var n := o.l.chunks[0].tail - o.l.chunks[0].data;
    SendKeeps(o, n);
    FreeHeadHeld(o.l.(dataBytes := o.l.dataBytes - n), n);
    assert Consume(o.l, n) == FreeHead(o.l.(dataBytes := o.l.dataBytes - n));
    var lens, lens' := Lens(o.l), Lens(Sent(o, n).l);
    assert forall i :: 0 <= i < |lens| - 1 ==> lens'[i] == lens[1..][i];
    if |lens'| == |lens| {
      assert lens'[|lens| - 1] == 0;
    }
  }

  lemma BreaksNext(lens: seq<nat>, lens': seq<nat>, replies: seq<Reply>)
    requires lens != [] && replies != [] && (lens' == lens[1..] || lens' == lens[1..] + [0])
    requires Left(replies[0], lens[0]) == lens[0] && !Breaks(replies[0], lens[0])
    ensures BreaksAt(lens, replies) <==> BreaksAt(lens', replies[1..])
  {
    hide Breaks;
    if BreaksAt(lens, replies) {
      var k :| 0 <= k < |replies| && k < |lens| && Breaks(replies[k], lens[k]) && TakesAll(lens, replies, k);
      assert replies[1..][k - 1] == replies[k] && lens'[k - 1] == lens[k];
      assert forall i :: 0 <= i < k - 1 ==> replies[1..][i] == replies[i + 1] && lens'[i] == lens[i + 1];
      assert TakesAll(lens', replies[1..], k - 1);
    }
    if BreaksAt(lens', replies[1..]) {
      var k :| 0 <= k < |replies| - 1 && k < |lens'| && Breaks(replies[1..][k], lens'[k]) && TakesAll(lens', replies[1..], k);
      NeverBreaks(replies[1..][k]);
      assert k < |lens| - 1 && replies[k + 1] == replies[1..][k] && lens[k + 1] == lens'[k];
      forall i | 0 <= i < k + 1
        ensures Left(replies[i], lens[i]) == lens[i]
      {
        assert i > 0 ==> replies[1..][i - 1] == replies[i] && lens'[i - 1] == lens[i];
      }
      assert TakesAll(lens, replies, k + 1);
    }
  }

  lemma NeverBreaks(r: Reply)
    ensures !Breaks(r, 0)
  {
  }

  /** A flush fails exactly if the link breaks at a chunk, having taken all before it. */
  lemma {:induction false} FlushFailsIff(o: Out, replies: seq<Reply>)
    requires GoodOut(o) && !o.writeError
    ensures Flush(o, replies).writeError <==> BreaksAt(Lens(o.l), replies)
    decreases |Held(o.l)|
  {
    hide Bytes, Sent, Breaks;
    HeadHolds(o.l);
    if o.l.chunks == [] || o.l.dataBytes == 0 {
      NothingBreaks(o.l, replies);
    } else if replies != [] {
      var c := o.l.chunks[0];
      var n := c.tail - c.data;
      FailsIff(replies[0], n);
      SentLens(o);
      assert Lens(o.l)[0] == n;
      if Breaks(replies[0], n) {
        assert TakesAll(Lens(o.l), replies, 0);
      } else if Left(replies[0], n) == n {
        SendKeeps(o, n);
        BreaksNext(Lens(o.l), Lens(Sent(o, n).l), replies);
        FlushFailsIff(Sent(o, n), replies[1..]);
      } else {
        StopsFirst(Lens(o.l), replies);
        if Left(replies[0], n) > 0 {
          SendKeeps(o, Left(replies[0], n));
        }
      }
    }
  }

  lemma StopsFirst(lens: seq<nat>, replies: seq<Reply>)
    requires lens != [] && replies != [] && Left(replies[0], lens[0]) != lens[0] && !Breaks(replies[0], lens[0])
    ensures !BreaksAt(lens, replies)
  {
    hide Breaks;
  }

  lemma {:induction false} BytesCount(chunks: seq<Chunk>, i: nat)
    requires i < |chunks| && forall k :: 0 <= k < |chunks| ==> chunks[k].data <= chunks[k].tail <= |chunks[k].mem|
    ensures |Live(chunks[i])| <= |Bytes(chunks)|
    decreases |chunks|
  {
    if i > 0 {
      BytesCount(chunks[1..], i - 1);
    }
  }

  lemma NothingBreaks(l: List, replies: seq<Reply>)
    requires Valid(l) && (l.chunks == [] || l.dataBytes == 0)
    ensures !BreaksAt(Lens(l), replies)
  {
    hide Breaks, Bytes;
    forall k | 0 <= k < |l.chunks| && k < |replies|
      ensures !Breaks(replies[k], Lens(l)[k])
    {
      BytesCount(l.chunks, k);
      NeverBreaks(replies[k]);
    }
  }

  /** The link takes all it is given. */
  predicate Willing(replies: seq<Reply>, size: nat) {
    forall k :: 0 <= k < |replies| ==> replies[k] == [Wrote(size)]
  }

  /** With such a link a flush sends everything, and says that nothing waits. */
  lemma {:induction false} FlushSends(o: Out, replies: seq<Reply>)
    requires GoodOut(o) && !o.writeError && Willing(replies, o.l.bufferLen) && |Held(o.l)| <= |replies|
    ensures var (done, o') := WritePending(o, replies);
            done && GoodOut(o') && Held(o'.l) == [] && o'.delivered == o.delivered + Held(o.l) && !o'.writeError
    decreases |Held(o.l)|
  {
    hide Bytes, Sent;
    HeadHolds(o.l);
    if o.l.chunks != [] && o.l.dataBytes != 0 {
      var c := o.l.chunks[0];
      var n := c.tail - c.data;
      assert n <= o.l.bufferLen && Left(replies[0], n) == n && !Fails(replies[0], n);
      HeldHead(o.l);
      SendKeeps(o, n);
      FlushSends(Sent(o, n), replies[1..]);
    }
  }

  /** What the link takes of the first chunk is sent, whatever comes after. */
  lemma FlushMoves(o: Out, replies: seq<Reply>)
    requires GoodOut(o) && !o.writeError && Held(o.l) != [] && replies != []
    ensures o.l.chunks != []
    ensures var c := o.l.chunks[0]; o.delivered + Live(c)[..Left(replies[0], |Live(c)|)] <= WritePending(o, replies).1.delivered
  {
    hide Bytes, Sent;
    HeadHolds(o.l);
    var c := o.l.chunks[0];
    var n := Left(replies[0], c.tail - c.data);
    if n > 0 && !Fails(replies[0], c.tail - c.data) {
      SendKeeps(o, n);
      SentDelivered(o, n);
      if n == c.tail - c.data {
        FlushKeeps(Sent(o, n), replies[1..]);
      }
    }
  }

  lemma SentDelivered(o: Out, n: nat)
    requires GoodOut(o) && o.l.chunks != [] && 0 < n <= |Live(o.l.chunks[0])|
    ensures Sent(o, n).delivered == o.delivered + Live(o.l.chunks[0])[..n] && Sent(o, n).writeError == o.writeError
  {
    hide Bytes, Consume;
  }
}
