/**
 A stream on a descriptor as it is in memory: the two buffer lists of src/libubox/ustream.c, the
 flags beside them, and the functions of ustream.c and ustream-fd.c that update them. Each method
 is tied to the step of UstreamFd that says what it does to the stream as a value.
 */
module Stream {
  import opened ChunkQueue
  import opened OutputQueue
  import opened UstreamFd
  import opened Ustream

  class Stream {
    const r: BufList
    const w: BufList
    var full: bool
    var user: bool
    var eof: bool
    var writeError: bool
    /** What the event loop watches the descriptor for. */
    var watchRead: bool
    var watchWrite: bool
    /** Everything the descriptor has taken. */
    var delivered: seq<Byte>

    ghost predicate Valid()
      reads this, r, w, r.model.repr, w.model.repr
    {
      && r.Valid() && w.Valid()
      && this !in r.model.repr && this !in w.model.repr && r.model.repr !! w.model.repr
    }

    ghost function Value(): Fd
      reads this, r, w
    {
      Fd(r.model.list, Out(w.model.list, delivered, writeError), Block(full, user, eof), Watch(watchRead, watchWrite))
    }

    /** ustream_fd_init with the defaults of ustream_init_defaults. */
    constructor ()
      ensures Valid() && fresh(r.model.repr) && fresh(w.model.repr)
      ensures Value() == Init(List([], -1, 0, 1, 1, 4096), List([], -1, 0, 2, -1, 256))
      ensures GoodFd(Value()) && Watched(Value()) && Fitting(Value())
    {
      r := new BufList(1, 1, 4096);
      w := new BufList(2, -1, 256);
      full, user, eof, writeError, delivered := false, false, false, false, [];
      watchRead, watchWrite := false, false;
      new;
      SetUloop(false);
    }

    method SetUloop(write: bool)
      requires Valid()
      modifies this`watchRead, this`watchWrite
      ensures Valid() && Value() == UstreamFd.SetUloop(old(Value()), write)
    {
      hide BufList.Valid;
      w.Shape();
      watchRead := !full && !user && !eof;
      watchWrite := write || (w.head != null && w.dataBytes != 0 && !writeError);
    }

    /** __ustream_set_read_blocked */
    method SetReadBlocked(full': bool, user': bool)
      requires Valid()
      modifies this`full, this`user, this`watchRead, this`watchWrite
      ensures Valid() && Value() == SetBlocked(old(Value()), full', user')
    {
      hide BufList.Valid;
      var changed := (full || user) != (full' || user');
      full, user := full', user';
      if changed {
        SetUloop(false);
      }
    }

    /** ustream_consume */
    method Consume(n: nat)
      requires Valid() && GoodFd(Value()) && GoodOp(Value(), Consumed(n))
      modifies this, r.model.repr
      ensures Valid() && Value() == Advance(old(Value()), Consumed(n)) && r.model.repr <= old(r.model.repr)
      ensures w.model == old(w.model)
    {
      hide BufList.Valid, Held;
      if n == 0 {
        return;
      }
      r.Consume(n);
      SetReadBlocked(false, user);
    }

    /** A read into the room that ustream_reserve found, and ustream_fill_read. */
    method Receive(data: seq<Byte>)
      requires Valid() && Sound(r.model.list) && r.model.list.dt >= 0
      modifies r.model.repr
      ensures Valid() && r.model.repr == old(r.model.repr) && w.model == old(w.model)
      ensures var l := old(r.model.list); r.model.list == Put(l, data[..Min(|data|, Space(l))])
    {
      hide BufList.Valid, Laid, Held, Put, Lying, FillRead;
      r.Shape();
      var room := r.Reserved();
      var n := if |data| < room then |data| else room;
      FillIsPut(r.model.list, data[..n]);
      r.Deposit(data[..n]);
      r.FillRead(n);
    }

    /** A round of ustream_fd_read_pending; `more` says whether the loop goes on. */
    method ReadOnce(allocs: Allocs, answer: Input) returns (more: bool)
      requires Valid() && GoodFd(Value()) && GoodOp(Value(), FdOp.ReadOnce(allocs, answer))
      modifies this, r.model.repr
      ensures Valid() && Value() == Advance(old(Value()), FdOp.ReadOnce(allocs, answer))
      ensures fresh(r.model.repr - old(r.model.repr)) && w.model == old(w.model)
    {
      hide BufList.Valid, Held, Put, PrepareFrom;
      if full || user {
        return false;
      }
      PrepareFromKeeps(r.model.list, 1, allocs);
      r.Shape();
      var ok, _ := r.PrepareBuf(1, allocs);
      if !ok {
        SetReadBlocked(true, user);
        return false;
      }
      match answer
      case Got(data) =>
        more := true;
        Receive(data);
      case Nothing =>
        return false;
      case Eof =>
        eof := true;
        SetUloop(false);
        return false;
    }

    /** ustream_fd_write; `reply` is what the write system calls answer. */
    method FdWrite(data: seq<Byte>, reply: Reply) returns (ret: int)
      requires Valid()
      modifies this`delivered, this`watchRead, this`watchWrite
      ensures Valid()
      ensures delivered == old(delivered) + data[..Left(reply, |data|)]
      ensures ret == if Fails(reply, |data|) then -1 else Left(reply, |data|)
      ensures var s := old(Value()).(out := Value().out);
              Value() == if 0 <= ret < |data| then UstreamFd.SetUloop(s, true) else s
    {
      hide BufList.Valid, Held, Sound;
      var done, at := 0, 0;
      while done < |data| && at < |reply|
        invariant done <= |data| && at <= |reply| && Valid()
        invariant delivered == old(delivered) + data[..done]
        invariant done + Left(reply[at..], |data| - done) == Left(reply, |data|)
        invariant Fails(reply[at..], |data| - done) == Fails(reply, |data|)
        invariant watchRead == old(watchRead) && watchWrite == old(watchWrite)
      {
        assert reply[at..][1..] == reply[at + 1..];
        match reply[at] {
          case Wrote(n) =>
            var len := if n < |data| - done then n else |data| - done;
            delivered := delivered + data[done..done + len];
            done := done + len;
          case Interrupted =>
          case Again => break;
          case Broken => return -1;
        }
        at := at + 1;
      }
      if done < |data| {
        SetUloop(true);
      }
      ret := done;
    }

    /** ustream_write */
    method Write(data: seq<Byte>, reply: Reply, allocs: Allocs) returns (ret: int)
      requires Valid() && GoodFd(Value()) && GoodOp(Value(), Written(data, reply, allocs))
      modifies this, w.model.repr
      ensures Valid() && fresh(w.model.repr - old(w.model.repr)) && r.model == old(r.model)
      ensures Value() == Advance(old(Value()), Written(data, reply, allocs))
      ensures ret == OutputQueue.Write(old(Value().out), data, reply, allocs).0
    {
      hide BufList.Valid, Held, OutputQueue.WriteBuffered, Left, Fails, DoRead, Flushing, ChunkQueue.Consume, Sound;
      w.Shape();
      if writeError {
        return 0;
      }
      var wr := 0;
      if w.dataBytes == 0 {
        wr := FdWrite(data, reply);
        if wr == |data| {
          return wr;
        }
        if wr < 0 {
          writeError := true;
          return wr;
        }
      }
      var n, _ := w.WriteBuffered(data[wr..], allocs);
      ret := wr + n;
    }

    /** A round of the loop of ustream_write_pending; `go` says whether it goes on, with `next`. */
    method SendHead(buf: Buf, reply: Reply, ghost rest: seq<Reply>) returns (go: bool, next: Buf?)
      requires Valid() && GoodFd(Value()) && !writeError && w.head == buf && w.dataBytes != 0
      modifies this, w.model.repr
      ensures Valid() && w.model.repr <= old(w.model.repr) && r.model == old(r.model)
      ensures !go ==> Value() == Flushing(old(Value()), [reply] + rest)
      ensures !go && writeError ==> w.model.list.dataBytes != 0
      ensures go ==> GoodFd(Value()) && |Held(w.model.list)| < |Held(old(w.model.list))| && !writeError
      ensures go ==> Flushing(Value(), rest) == Flushing(old(Value()), [reply] + rest)
      ensures go ==> (w.dataBytes != 0 ==> next == w.head)
    {
      hide BufList.Valid, Held, Flushing, Left, Fails, FreeHead, Laid;
      w.Shape();
      FlushingStep(Value(), reply, rest);
      var max;
      max, next := w.Extent(buf);
      var bytes := w.HeadBytes(buf);
      var len := FdWrite(bytes, reply);
      if len < 0 {
        writeError := true;
        return false, next;
      }
      if len == 0 {
        return false, next;
      }
      w.Count(-len);
      if len < max {
        w.Skip(buf, len);
        return false, next;
      }
      w.FreeBuf(buf);
      w.Shape();
      go := true;
    }

    /** ustream_write_pending */
    method WritePending(replies: seq<Reply>) returns (done: bool)
      requires Valid() && GoodFd(Value())
      modifies this, w.model.repr
      ensures Valid() && w.model.repr <= old(w.model.repr) && r.model == old(r.model)
      ensures Value() == Advance(old(Value()), Flushed(replies))
      ensures done == (!writeError && w.model.list.dataBytes == 0)
    {
      hide BufList.Valid, Held, Flushing, Left, Fails, DoRead, OutputQueue.Write, UstreamFd.SetUloop, Laid;
      w.Shape();
      if writeError {
        FlushingIdle(Value(), replies);
        return false;
      }
      ghost var want := Flushing(Value(), replies);
      var buf, k, go := w.head, 0, true;
      while go && buf != null && w.dataBytes != 0
        invariant Valid() && w.model.repr <= old(w.model.repr) && r.model == old(r.model) && k <= |replies|
        invariant go ==> GoodFd(Value()) && !writeError && Flushing(Value(), replies[k..]) == want
        invariant go ==> (w.dataBytes != 0 ==> buf == w.head)
        invariant !go ==> Value() == want && (writeError ==> w.model.list.dataBytes != 0)
        decreases go, if go then |Held(w.model.list)| else 0
      {
        var reply := if k < |replies| then replies[k] else [];
        ghost var left := replies[k..];
        k := if k < |replies| then k + 1 else k;
        FlushingSilent(Value());
        assert left == (if left == [] then [] else [reply] + replies[k..]);
        assert left == [] ==> [reply] + replies[k..] == [[]];
        go, buf := SendHead(buf, reply, replies[k..]);
      }
      w.Shape();
      if go {
        HeadHolds(w.model.list);
        FlushingIdle(Value(), replies[k..]);
      }
      done := w.dataBytes == 0;
    }

    /** __ustream_fd_poll after a write event. */
    method Flush(replies: seq<Reply>)
      requires Valid() && GoodFd(Value())
      modifies this, w.model.repr
      ensures Valid() && w.model.repr <= old(w.model.repr) && r.model == old(r.model)
      ensures GoodFd(Advance(old(Value()), Flushed(replies)))
      ensures Value() == Advance(Advance(old(Value()), Flushed(replies)), Settled)
    {
      hide BufList.Valid, Held, Flushing, Left, Fails, DoRead, OutputQueue.Write, UstreamFd.SetUloop, Laid;
      FlushingKeeps(Value(), replies);
      var done := WritePending(replies);
      if done {
        SetUloop(false);
      }
    }

    /** ustream_set_read_blocked */
    method SetUserBlocked(set_: bool)
      requires Valid() && GoodFd(Value())
      modifies this
      ensures Valid() && Value() == Advance(old(Value()), UserBlock(set_))
      ensures r.model == old(r.model) && w.model == old(w.model)
    {
      hide BufList.Valid, Held;
      SetReadBlocked(full, set_);
    }

    /** The end of __ustream_fd_poll, when the descriptor has reported an error. */
    method ErrorReported()
      requires Valid() && GoodFd(Value())
      modifies this
      ensures Valid() && Value() == Advance(old(Value()), ErrorSeen)
      ensures r.model == old(r.model) && w.model == old(w.model)
    {
      hide BufList.Valid, Held;
      if !writeError {
        writeError := true;
        SetUloop(false);
      }
    }
  }
}
