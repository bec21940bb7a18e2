/**
 The descriptor layer of src/libubox/ustream-fd.c on values: when the loop is asked to watch the
 descriptor, what is read and written, and that no wakeup is ever lost.
 */
module UstreamFd {
  import opened ChunkQueue
  import opened OutputQueue

  /** `block` holds the two bits of read_blocked and eof; `watch` is what the loop watches for. */
  datatype Fd = Fd(input: List, out: Out, block: Block, watch: Watch)

  datatype Block = Block(full: bool, user: bool, eof: bool)

  datatype Watch = Watch(read: bool, write: bool)

  predicate Blocked(s: Fd) { s.block.full || s.block.user }

  predicate Unsent(s: Fd) { s.out.l.chunks != [] && s.out.l.dataBytes != 0 && !s.out.writeError }

  /** ustream_fd_set_uloop */
  function SetUloop(s: Fd, write: bool): Fd {
    s.(watch := Watch(!Blocked(s) && !s.block.eof, write || Unsent(s)))
  }

  /** __ustream_set_read_blocked */
  function SetBlocked(s: Fd, full: bool, user: bool): Fd {
    var s1 := s.(block := s.block.(full := full, user := user));
    if Blocked(s1) != Blocked(s) then SetUloop(s1, false) else s1
  }

  /** What one read system call answers; any error but EINTR, EAGAIN and ENOTCONN is an end of file. */
  datatype Input = Got(data: seq<Byte>) | Nothing | Eof

  /** One step; a callback made during a step, or between two, is a run of further steps. */
  datatype FdOp =
    | UserBlock(set_: bool)                             // ustream_set_read_blocked
    | Consumed(n: nat)                                  // ustream_consume
    | ReadOnce(allocs: Allocs, answer: Input)           // a round of ustream_fd_read_pending
    | Written(data: seq<Byte>, reply: Reply, allocs: Allocs) // ustream_write
    | Flushed(replies: seq<Reply>)                      // ustream_write_pending
    | Settled                                           // its caller, when it answers true
    | ErrorSeen                                         // the end of __ustream_fd_poll

  predicate GoodFd(s: Fd) { Valid(s.input) && GoodOut(s.out) }

  predicate GoodOp(s: Fd, op: FdOp)
    requires GoodFd(s)
  {
    match op
    case Consumed(n) => n <= |Held(s.input)|
    case ReadOnce(allocs, answer) =>
      GoodAllocs(allocs, s.input.bufferLen) && (answer.Got? ==> answer.data != [])
    case Written(_, _, allocs) => GoodAllocs(allocs, s.out.l.bufferLen)
    case _ => true
  }

  /** How much one read may bring in: the room of the chunk being filled. */
  function Space(l: List): nat
    requires Sound(l) && l.dt >= 0
  {
    l.bufferLen - l.chunks[l.dt].tail
  }

  function DoRead(s: Fd, allocs: Allocs, answer: Input): Fd
    requires GoodFd(s) && GoodOp(s, ReadOnce(allocs, answer))
  {
    if Blocked(s) then s
    else
      PrepareFromKeeps(s.input, 1, allocs);
      var (ok, l, _) := PrepareFrom(s.input, 1, allocs);
      var s1 := s.(input := l);
      if !ok then SetBlocked(s1, true, s.block.user)
      else match answer
        case Got(data) => s1.(input := Put(l, data[..Min(|data|, Space(l))]))
        case Nothing => s1
        case Eof => SetUloop(s1.(block := s1.block.(eof := true)), false)
  }

  function Advance(s: Fd, op: FdOp): Fd
    requires GoodFd(s) && GoodOp(s, op)
  {
    match op
    case UserBlock(u) => SetBlocked(s, s.block.full, u)
    case Consumed(n) => if n == 0 then s else SetBlocked(s.(input := Consume(s.input, n)), false, s.block.user)
    case ReadOnce(allocs, answer) => DoRead(s, allocs, answer)
    case Written(data, reply, allocs) =>
      var short := !s.out.writeError && s.out.l.dataBytes == 0 && !Fails(reply, |data|) && Left(reply, |data|) < |data|;
      var s1 := if short then SetUloop(s, true) else s;
      s1.(out := Write(s.out, data, reply, allocs).1)
    case Flushed(replies) => Flushing(s, replies)
    case Settled => if s.out.writeError || s.out.l.dataBytes != 0 then s else SetUloop(s, false)
    case ErrorSeen => if s.out.writeError then s else SetUloop(s.(out := s.out.(writeError := true)), false)
  }

  /** ustream_write_pending with the watching that ustream_fd_write does on each short write. */
  function Flushing(s: Fd, replies: seq<Reply>): Fd
    requires GoodFd(s)
    decreases |Held(s.out.l)|
  {
    if s.out.writeError || s.out.l.chunks == [] || s.out.l.dataBytes == 0 then s
    else
      HeadHolds(s.out.l);
      var c := s.out.l.chunks[0];
      var max := c.tail - c.data;
      var reply := if replies == [] then [] else replies[0];
      var n := Left(reply, max);
      var o1 := s.out.(delivered := s.out.delivered + Live(c)[..n]);
      if Fails(reply, max) then s.(out := o1.(writeError := true))
      else if n == 0 then SetUloop(s, true)
      else
        SendKeeps(s.out, n);
        if n < max then SetUloop(s, true).(out := Sent(s.out, n))
        else Flushing(s.(out := Sent(s.out, n)), if replies == [] then [] else replies[1..])
  }

  lemma FlushingIdle(s: Fd, replies: seq<Reply>)
    requires GoodFd(s) && (s.out.writeError || s.out.l.chunks == [] || s.out.l.dataBytes == 0)
    ensures Flushing(s, replies) == s
  {
  }

  /** A link that answers no more takes nothing. */
  lemma FlushingSilent(s: Fd)
    requires GoodFd(s)
    ensures Flushing(s, []) == Flushing(s, [[]])
  {
  }

  /** One round of a flush. */
  lemma FlushingStep(s: Fd, reply: Reply, rest: seq<Reply>)
    requires GoodFd(s) && !s.out.writeError && s.out.l.chunks != [] && s.out.l.dataBytes != 0
    ensures var l := s.out.l;
            var c := l.chunks[0];
            var n := Left(reply, |Live(c)|);
            && 0 < c.tail - c.data == |Live(c)| && |c.mem| > 0
            && (Fails(reply, |Live(c)|) ==>
                Flushing(s, [reply] + rest) == s.(out := Out(l, s.out.delivered + Live(c)[..n], true)))
            && (!Fails(reply, |Live(c)|) && n == 0 ==> Flushing(s, [reply] + rest) == SetUloop(s, true))
            && (!Fails(reply, |Live(c)|) && 0 < n < |Live(c)| ==>
                Flushing(s, [reply] + rest) == SetUloop(s, true).(out := Out(
                  l.(chunks := l.chunks[0 := c.(data := c.data + n)], dataBytes := l.dataBytes - n),
                  s.out.delivered + Live(c)[..n], false)))
            && (!Fails(reply, |Live(c)|) && n == |Live(c)| ==>
                var s1 := s.(out := Out(FreeHead(l.(dataBytes := l.dataBytes - n)), s.out.delivered + Live(c)[..n], false));
                && GoodFd(s1) && |Held(s1.out.l)| < |Held(l)| && (s1.out.l.dataBytes != 0 ==> |l.chunks| > 1)
                && Flushing(s, [reply] + rest) == Flushing(s1, rest))
  {
    hide Bytes, FreeHead;
    assert ([reply] + rest)[1..] == rest;
    var l := s.out.l;
    HeadHolds(l);
    HeldHead(l);
    var n := Left(reply, |Live(l.chunks[0])|);
    if n > 0 {
      SendKeeps(s.out, n);
      FreeHeadHeld(l.(dataBytes := l.dataBytes - n), n);
      if |l.chunks| == 1 {
        OnlyChunk(l);
      }
    }
  }

  /** The stream part of a flush is ustream_write_pending. */
  lemma {:induction false} FlushingFlushes(s: Fd, replies: seq<Reply>)
    requires GoodFd(s) && !s.out.writeError
    ensures Flushing(s, replies).out == WritePending(s.out, replies).1
    decreases |Held(s.out.l)|
  {
    hide Sent, Bytes;
    if s.out.l.chunks != [] && s.out.l.dataBytes != 0 {
      HeadHolds(s.out.l);
      if replies != [] {
        var c := s.out.l.chunks[0];
        var n := Left(replies[0], c.tail - c.data);
        if n > 0 && !Fails(replies[0], c.tail - c.data) {
          SendKeeps(s.out, n);
          if n == c.tail - c.data {
            FlushingFlushes(s.(out := Sent(s.out, n)), replies[1..]);
          }
        }
      }
    }
  }

  // ----- no lost wakeup -----

  /** The descriptor is watched for reading exactly when reading is wanted, and for writing when output waits. */
  predicate Watched(s: Fd) {
    (s.watch.read <==> !s.block.full && !s.block.user && !s.block.eof) && (Unsent(s) ==> s.watch.write)
  }

  /** A stream with one input chunk stops reading for want of room only when the chunk is full. */
  predicate Fitting(s: Fd)
    requires GoodFd(s)
  {
    s.input.maxBuffers == 1 && |s.input.chunks| <= 1 && (s.block.full ==> |Held(s.input)| == s.input.bufferLen)
  }

  /** The bytes one step brings in, takes out of the input, and takes over for output. */
  function Received(s: Fd, op: FdOp): seq<Byte>
    requires GoodFd(s) && GoodOp(s, op)
  {
    if op.ReadOnce? && op.answer.Got? && !s.block.full && !s.block.user then
      PrepareFromKeeps(s.input, 1, op.allocs);
      var (ok, l, _) := PrepareFrom(s.input, 1, op.allocs);
      if ok then op.answer.data[..Min(|op.answer.data|, Space(l))] else []
    else []
  }

  function Taken(s: Fd, op: FdOp): seq<Byte>
    requires GoodFd(s) && GoodOp(s, op)
  {
    if op.Consumed? then Held(s.input)[..op.n] else []
  }

  function TakenOver(s: Fd, op: FdOp): seq<Byte>
    requires GoodFd(s) && GoodOp(s, op)
  {
    if op.Written? then
      assert op.Written? ==> OpWrite(op.data, op.reply, op.allocs) == [OpWrite(op.data, op.reply, op.allocs)][0];
      Accepted(s.out, OpWrite(op.data, op.reply, op.allocs))
    else []
  }

  lemma DoReadKeeps(s: Fd, allocs: Allocs, answer: Input)
    requires GoodFd(s) && GoodOp(s, ReadOnce(allocs, answer))
    ensures var s' := DoRead(s, allocs, answer);
            && GoodFd(s') && s'.out == s.out
            && Held(s'.input) == Held(s.input) + Received(s, ReadOnce(allocs, answer))
            && s'.input == s.input.(chunks := s'.input.chunks, dt := s'.input.dt, dataBytes := s'.input.dataBytes)
            && (Watched(s) ==> Watched(s'))
  {
    hide PrepareFrom, Put, Bytes;
    if !Blocked(s) {
      PrepareFromKeeps(s.input, 1, allocs);
      var (ok, l, _) := PrepareFrom(s.input, 1, allocs);
      if ok && answer.Got? {
        PutKeeps(l, answer.data[..Min(|answer.data|, Space(l))]);
      }
    }
  }

  lemma DoReadFits(s: Fd, allocs: Allocs, answer: Input)
    requires GoodFd(s) && GoodOp(s, ReadOnce(allocs, answer)) && Fitting(s) && allocs != []
    ensures GoodFd(DoRead(s, allocs, answer)) && Fitting(DoRead(s, allocs, answer))
  {
    hide Prepare, Bytes;
    DoReadKeeps(s, allocs, answer);
    if !Blocked(s) {
      PrepareFull(s.input, allocs[0]);
      PrepareFromKeeps(s.input, 1, allocs);
    }
  }

  lemma {:induction false} FlushingFrame(s: Fd, replies: seq<Reply>)
    requires GoodFd(s)
    ensures var s' := Flushing(s, replies); s' == s.(out := s'.out, watch := s'.watch)
    decreases |Held(s.out.l)|
  {
    hide Sent, Bytes;
    if !s.out.writeError && s.out.l.chunks != [] && s.out.l.dataBytes != 0 {
      HeadHolds(s.out.l);
      var c := s.out.l.chunks[0];
      var reply := if replies == [] then [] else replies[0];
      var n := Left(reply, c.tail - c.data);
      if n == c.tail - c.data {
        SendKeeps(s.out, n);
        FlushingFrame(s.(out := Sent(s.out, n)), if replies == [] then [] else replies[1..]);
      }
    }
  }

  lemma FlushingKeeps(s: Fd, replies: seq<Reply>)
    requires GoodFd(s)
    ensures var s' := Flushing(s, replies);
            && GoodFd(s') && s' == s.(out := s'.out, watch := s'.watch)
            && s'.out.l.bufferLen == s.out.l.bufferLen
            && (s.out.writeError ==> s' == s)
            && (!s'.out.writeError ==> s'.out.delivered + Held(s'.out.l) == s.out.delivered + Held(s.out.l))
            && s.out.delivered <= s'.out.delivered
  {
    hide Flush, Bytes;
    FlushingFrame(s, replies);
    if !s.out.writeError {
      FlushingFlushes(s, replies);
      FlushKeeps(s.out, replies);
      FlushShape(s.out, replies);
    }
  }

  lemma {:induction false} FlushingWatched(s: Fd, replies: seq<Reply>)
    requires GoodFd(s) && Watched(s)
    ensures Watched(Flushing(s, replies))
    decreases |Held(s.out.l)|
  {
    hide Sent, Bytes;
    if !s.out.writeError && s.out.l.chunks != [] && s.out.l.dataBytes != 0 {
      HeadHolds(s.out.l);
      var c := s.out.l.chunks[0];
      var reply := if replies == [] then [] else replies[0];
      var n := Left(reply, c.tail - c.data);
      if n > 0 && !Fails(reply, c.tail - c.data) {
        SendKeeps(s.out, n);
        if n == c.tail - c.data {
          FlushingWatched(s.(out := Sent(s.out, n)), if replies == [] then [] else replies[1..]);
        }
      }
    }
  }

  lemma WrittenKeeps(s: Fd, op: FdOp)
    requires GoodFd(s) && GoodOp(s, op) && op.Written?
    ensures var s' := Advance(s, op);
            && GoodFd(s') && s' == s.(out := s'.out, watch := s'.watch)
            && s'.out.l.bufferLen == s.out.l.bufferLen
            && (Watched(s) ==> Watched(s'))
            && (s.out.writeError ==> s'.out.writeError)
            && (!s'.out.writeError ==> s'.out.delivered + Held(s'.out.l) == s.out.delivered + Held(s.out.l) + TakenOver(s, op))
            && s.out.delivered <= s'.out.delivered
  {
    hide WriteBuffered, Bytes;
    assert OpWrite(op.data, op.reply, op.allocs) == [OpWrite(op.data, op.reply, op.allocs)][0];
    StepKeeps(s.out, OpWrite(op.data, op.reply, op.allocs));
    HeadHolds(s.out.l);
    if !s.out.writeError {
      WriteKeeps(s.out, op.data, op.reply, op.allocs);
    }
  }

  /** Every step keeps the descriptor watched as it must be, and both queues. */
  lemma AdvanceKeeps(s: Fd, op: FdOp)
    requires GoodFd(s) && GoodOp(s, op)
    ensures var s' := Advance(s, op);
            && GoodFd(s') && (Watched(s) ==> Watched(s'))
            && s'.input.bufferLen == s.input.bufferLen && s'.out.l.bufferLen == s.out.l.bufferLen
            && Taken(s, op) + Held(s'.input) == Held(s.input) + Received(s, op)
            && (s.out.writeError ==> s'.out.writeError)
            && (!s'.out.writeError ==> s'.out.delivered + Held(s'.out.l) == s.out.delivered + Held(s.out.l) + TakenOver(s, op))
            && s.out.delivered <= s'.out.delivered
  {
    hide Flushing, DoRead, Bytes, Consume, Write, Accepted, PrepareFrom;
    match op
    case Consumed(n) =>
      ConsumeKeeps(s.input, n);
      assert Held(s.input) == Held(s.input)[..n] + Held(s.input)[n..];
    case ReadOnce(allocs, answer) => DoReadKeeps(s, allocs, answer);
    case Written(_, _, _) => WrittenKeeps(s, op);
    case Flushed(replies) =>
      FlushingKeeps(s, replies);
      if Watched(s) {
        FlushingWatched(s, replies);
      }
    case _ =>
  }

  /** While allocation succeeds, a stream with one input chunk stays unblocked until the chunk is full. */
  lemma AdvanceFits(s: Fd, op: FdOp)
    requires GoodFd(s) && GoodOp(s, op) && Fitting(s) && (op.ReadOnce? ==> op.allocs != [])
    ensures GoodFd(Advance(s, op)) && Fitting(Advance(s, op))
  {
    hide Flushing, DoRead, Bytes, Consume, Write;
    AdvanceKeeps(s, op);
    match op
    case Consumed(n) => ConsumeKeeps(s.input, n);
    case ReadOnce(allocs, answer) => DoReadFits(s, allocs, answer);
    case Written(_, _, _) => WrittenKeeps(s, op);
    case Flushed(replies) => FlushingKeeps(s, replies);
    case _ =>
  }

  // ----- whole runs -----

  predicate GoodRun(s: Fd, ops: seq<FdOp>)
    requires GoodFd(s)
    decreases |ops|
  {
    ops == [] || (GoodOp(s, ops[0]) && (AdvanceKeeps(s, ops[0]); GoodRun(Advance(s, ops[0]), ops[1..])))
  }

  datatype Tally = Tally(received: seq<Byte>, taken: seq<Byte>, accepted: seq<Byte>)

  function Run(s: Fd, ops: seq<FdOp>): (Fd, Tally)
    requires GoodFd(s) && GoodRun(s, ops)
    decreases |ops|
  {
    if ops == [] then (s, Tally([], [], []))
    else
      AdvanceKeeps(s, ops[0]);
      var (s', t) := Run(Advance(s, ops[0]), ops[1..]);
      (s', Tally(Received(s, ops[0]) + t.received, Taken(s, ops[0]) + t.taken, TakenOver(s, ops[0]) + t.accepted))
  }

  /** ustream_fd_init, on lists given by ustream_init_defaults. */
  function Init(input: List, output: List): Fd {
    SetUloop(Fd(input, Out(output, [], false), Block(false, false, false), Watch(false, false)), false)
  }

  /**
   No lost wakeup. After any run of reads, writes, flushes, blocking, unblocking, errors and end of
   file, the descriptor is watched for reading iff reading is neither blocked nor at its end, and
   for writing if output waits and no error has occurred. What was taken from the input followed
   by what is held is what was received; while no write has failed, what was delivered followed by
   what is held is what was accepted.
   */
  lemma {:induction false} RunKeeps(s: Fd, ops: seq<FdOp>)
    requires GoodFd(s) && GoodRun(s, ops) && Watched(s)
    ensures var (s', t) := Run(s, ops);
            && GoodFd(s') && Watched(s')
            && t.taken + Held(s'.input) == Held(s.input) + t.received
            && (s.out.writeError ==> s'.out.writeError)
            && (!s'.out.writeError ==> s'.out.delivered + Held(s'.out.l) == s.out.delivered + Held(s.out.l) + t.accepted)
    decreases |ops|
  {
    hide Advance, Bytes, Received, Taken, TakenOver;
    if ops != [] {
      AdvanceKeeps(s, ops[0]);
      var s1 := Advance(s, ops[0]);
      RunKeeps(s1, ops[1..]);
      var (s', t) := Run(s1, ops[1..]);
      Joined(Taken(s, ops[0]), Held(s1.input), Held(s.input) + Received(s, ops[0]), t.taken, Held(s'.input), t.received);
      if !s'.out.writeError {
        assert s1.out.delivered + Held(s1.out.l) + t.accepted
            == s.out.delivered + Held(s.out.l) + (TakenOver(s, ops[0]) + t.accepted);
      }
    }
  }

  lemma Joined<T>(a: seq<T>, b: seq<T>, ab: seq<T>, c: seq<T>, d: seq<T>, e: seq<T>)
    requires a + b == ab && c + d == b + e
    ensures (a + c) + d == ab + e
  {
    assert (a + c) + d == a + (c + d);
    assert a + (b + e) == (a + b) + e;
  }

  predicate Allocating(ops: seq<FdOp>) {
    forall k :: 0 <= k < |ops| ==> ops[k].ReadOnce? ==> ops[k].allocs != []
  }

  /** ... and, while allocation succeeds, reading stops for want of room only with a full chunk to be consumed. */
  lemma {:induction false} RunFits(s: Fd, ops: seq<FdOp>)
    requires GoodFd(s) && GoodRun(s, ops) && Fitting(s) && Allocating(ops)
    ensures GoodFd(Run(s, ops).0) && Fitting(Run(s, ops).0)
    decreases |ops|
  {
    hide Advance, Bytes, Received, Taken, TakenOver, Fitting;
    if ops != [] {
      AdvanceKeeps(s, ops[0]);
      AdvanceFits(s, ops[0]);
      RunFits(Advance(s, ops[0]), ops[1..]);
    }
  }

  // ----- the end of file, and write errors -----

  /** A read finds room, in a stream that is not blocked. */
  predicate Reads(s: Fd, op: FdOp)
    requires GoodFd(s) && GoodOp(s, op)
  {
    op.ReadOnce? && !s.block.full && !s.block.user && PrepareFrom(s.input, 1, op.allocs).0
  }

  /** Such a read answers that the peer has closed. */
  predicate SeesEof(s: Fd, op: FdOp)
    requires GoodFd(s) && GoodOp(s, op)
  {
    Reads(s, op) && op.answer.Eof?
  }

  /** The link breaks in a write, or in a flush, before taking what it is given; or its error is reported. */
  predicate SeesError(s: Fd, op: FdOp)
    requires GoodFd(s) && GoodOp(s, op)
  {
    match op
    case Written(data, reply, _) => Held(s.out.l) == [] && Breaks(reply, |data|)
    case Flushed(replies) => BreaksAt(Lens(s.out.l), replies)
    case ErrorSeen => true
    case _ => false
  }

  /** With one chunk, and an allocator that has one, there is room exactly while the chunk is not full of what is held. */
  lemma RoomIff(s: Fd, allocs: Allocs)
    requires GoodFd(s) && GoodAllocs(allocs, s.input.bufferLen) && Fitting(s) && allocs != []
    ensures PrepareFrom(s.input, 1, allocs).0 <==> |Held(s.input)| != s.input.bufferLen
  {
    hide Prepare, Bytes;
    PrepareFull(s.input, allocs[0]);
  }

  /**
   What each step does to the state of the stream: the end of file is noted exactly when a read finds it; a read without
   room blocks, and consuming lifts that; the user's block is what was last asked for; and a
   write error is noted exactly when the link breaks, or reports one. When all output is sent, writing is no more waited for.
   */
  lemma StateIs(s: Fd, op: FdOp)
    requires GoodFd(s) && GoodOp(s, op)
    ensures var s' := Advance(s, op);
            && (s'.block.eof <==> s.block.eof || SeesEof(s, op))
            && s'.block.user == (if op.UserBlock? then op.set_ else s.block.user)
            && (s'.block.full <==> if op.ReadOnce? && !s.block.full && !s.block.user then !Reads(s, op) else s.block.full && !(op.Consumed? && op.n > 0))
            && (s'.out.writeError <==> s.out.writeError || SeesError(s, op))
            && (op.Settled? && !s.out.writeError && Held(s.out.l) == [] ==> !s'.watch.write)
  {
    hide Flushing, DoRead, Bytes, Consume, Write, Accepted, PrepareFrom, Breaks, BreaksAt, Lens;
    match op
    case Consumed(n) =>
    case ReadOnce(allocs, answer) => ReadState(s, allocs, answer);
    case Written(data, reply, allocs) =>
      if !s.out.writeError {
        WriteIs(s.out, data, reply, allocs);
      } else {
        WrittenKeeps(s, op);
      }
    case Flushed(replies) =>
      FlushingKeeps(s, replies);
      if !s.out.writeError {
        FlushingFlushes(s, replies);
        FlushFailsIff(s.out, replies);
      }
    case _ =>
  }

  lemma ReadState(s: Fd, allocs: Allocs, answer: Input)
    requires GoodFd(s) && GoodOp(s, ReadOnce(allocs, answer))
    ensures var op, s' := ReadOnce(allocs, answer), DoRead(s, allocs, answer);
            && s'.block == Block(if s.block.full || s.block.user then s.block.full else !Reads(s, op), s.block.user, s.block.eof || SeesEof(s, op))
            && s'.out == s.out
  {
    hide PrepareFrom, Put, Bytes;
    if !Blocked(s) {
      PrepareFromKeeps(s.input, 1, allocs);
    }
  }

  /** Output waits. */
  predicate Waits(s: Fd)
    requires GoodFd(s)
  {
    Held(s.out.l) != [] && !s.out.writeError
  }

  lemma WaitsUnsent(s: Fd)
    requires GoodFd(s)
    ensures Waits(s) <==> Unsent(s)
  {
    hide Bytes;
    HeadHolds(s.out.l);
  }

  /** A write goes to the link, which takes less than all of it. */
  predicate FallsShort(s: Fd, op: FdOp)
    requires GoodFd(s) && GoodOp(s, op) && op.Written?
  {
    !s.out.writeError && Held(s.out.l) == [] && !Breaks(op.reply, |op.data|) && Left(op.reply, |op.data|) < |op.data|
  }

  /**
   When writing is watched for: a write that falls short begins it, and so does a flush that leaves something; a flush that
   leaves nothing ends it, and so does an error seen; nothing else begins it, and nothing ends it while output waits.
   */
  lemma WriteWatchIs(s: Fd, op: FdOp)
    requires GoodFd(s) && GoodOp(s, op) && Watched(s)
    ensures var s' := Advance(s, op);
            GoodFd(s') && match op
            case Written(_, _, _) => s'.watch.write <==> s.watch.write || FallsShort(s, op)
            case Flushed(_) => s'.watch.write <==> s.watch.write || Waits(s')
            case Settled => s'.watch.write <==> s.watch.write && (s.out.writeError || Held(s.out.l) != [])
            case ErrorSeen => s'.watch.write <==> s.watch.write && s.out.writeError
            case _ => (s'.watch.write ==> s.watch.write) && (Waits(s) ==> s'.watch.write)
  {
    hide Flushing, Bytes, Consume, Write, Accepted, PrepareFrom, Breaks, Put;
    AdvanceKeeps(s, op);
    WaitsUnsent(s);
    match op
    case ReadOnce(allocs, answer) => PrepareFromKeeps(s.input, 1, allocs);
    case Written(data, reply, allocs) => FailsIff(reply, |data|);
    case Flushed(replies) => FlushWatch(s, replies);
    case _ =>
  }

  lemma {:induction false} FlushWatch(s: Fd, replies: seq<Reply>)
    requires GoodFd(s)
    ensures var s' := Flushing(s, replies);
            GoodFd(s') && (s'.watch.write <==> s.watch.write || (!s.out.writeError && Waits(s')))
    decreases |Held(s.out.l)|
  {
    hide Bytes, Consume, Fails;
    FlushingKeeps(s, replies);
    HeadHolds(s.out.l);
    if !s.out.writeError && s.out.l.chunks != [] && s.out.l.dataBytes != 0 {
      var max := s.out.l.chunks[0].tail - s.out.l.chunks[0].data;
      var reply := if replies == [] then [] else replies[0];
      var n := Left(reply, max);
      if n > 0 && !Fails(reply, max) {
        SendKeeps(s.out, n);
        TakeKeeps(s.out.l, n);
        HeldHead(s.out.l);
        if n == max {
          FlushWatch(s.(out := Sent(s.out, n)), if replies == [] then [] else replies[1..]);
        }
      }
    }
  }

  predicate EofSeen(s: Fd, ops: seq<FdOp>)
    requires GoodFd(s) && GoodRun(s, ops)
    decreases |ops|
  {
    ops != [] && (SeesEof(s, ops[0]) || (AdvanceKeeps(s, ops[0]); EofSeen(Advance(s, ops[0]), ops[1..])))
  }

  predicate ErrorMet(s: Fd, ops: seq<FdOp>)
    requires GoodFd(s) && GoodRun(s, ops)
    decreases |ops|
  {
    ops != [] && (SeesError(s, ops[0]) || (AdvanceKeeps(s, ops[0]); ErrorMet(Advance(s, ops[0]), ops[1..])))
  }

  /** Over any run: the end of file is noted exactly if some read has found it, and a write error exactly if the link has broken or reported one. */
  lemma {:induction false} RunState(s: Fd, ops: seq<FdOp>)
    requires GoodFd(s) && GoodRun(s, ops)
    ensures var s' := Run(s, ops).0;
            && (s'.block.eof <==> s.block.eof || EofSeen(s, ops))
            && (s'.out.writeError <==> s.out.writeError || ErrorMet(s, ops))
    decreases |ops|
  {
    hide Advance, Bytes, Received, Taken, TakenOver, SeesEof, SeesError;
    if ops != [] {
      AdvanceKeeps(s, ops[0]);
      StateIs(s, ops[0]);
      RunState(Advance(s, ops[0]), ops[1..]);
    }
  }
}
