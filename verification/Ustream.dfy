/**
 The buffer lists of src/libubox/ustream.c as they are in memory: chunks linked through `next`,
 with three pointers into the list. Each method is tied to the function of ChunkQueue or
 OutputQueue that says what it does to the list as a value, `model.list`.
 */
module Ustream {
  import opened ChunkQueue
  import opened OutputQueue
  import opened Sequences

  ghost predicate Apart(s: seq<Buf>) {
    forall i, j :: 0 <= i < j < |s| ==> s[i] != s[j] && s[i].mem != s[j].mem
  }

  lemma ApartAppend(s: seq<Buf>, b: Buf)
    requires Apart(s) && (forall i :: 0 <= i < |s| ==> s[i] != b && s[i].mem != b.mem)
    ensures Apart(s + [b])
  {
  }

  lemma ApartTail(s: seq<Buf>)
    requires Apart(s) && s != []
    ensures Apart(s[1..]) && (forall i :: 0 <= i < |s[1..]| ==> s[1..][i] != s[0] && s[1..][i].mem != s[0].mem)
  {
  }

  lemma ApartAt(s: seq<Buf>, k: nat)
    requires Apart(s) && k < |s|
    ensures forall i :: 0 <= i < |s| && i != k ==> s[i] != s[k] && s[i].mem != s[k].mem
  {
  }

  lemma SpliceNothing<T>(s: seq<T>, was: seq<T>)
    ensures Splice(s, 0, was[..0]) == s && was[0..] == was
  {
  }

  /** Two adjoining pieces of one text, written one after the other. */
  lemma SpliceTwice<T>(s: seq<T>, was: seq<T>, len: nat, n: nat)
    requires len + n <= |was| && len + n <= |s|
    ensures Splice(Splice(s, 0, was[..len]), len, was[len..][..n]) == Splice(s, 0, was[..len + n])
    ensures was[len..][n..] == was[len + n..]
  {
  }

  /** memcpy between two buffers. */
  method Copy(dst: array<Byte>, at: nat, src: array<Byte>, from: nat, n: nat)
    requires dst != src && at + n <= dst.Length && from + n <= src.Length
    modifies dst
    ensures dst[..] == Splice(old(dst[..]), at, src[from..from + n])
  {
    forall k | 0 <= k < n {
      dst[at + k] := src[from + k];
    }
  }

  class Buf {
    var next: Buf?
    var data: nat
    var tail: nat
    const mem: array<Byte>

    constructor (bytes: seq<Byte>)
      requires bytes != []
      ensures fresh(mem) && next == null && AsChunk() == Cleared(bytes)
    {
      mem := new Byte[|bytes|](i requires 0 <= i < |bytes| => bytes[i]);
      next, data, tail := null, 0, 0;
      new;
      mem[0] := 0;
      assert mem[..] == bytes[0 := 0];
    }

    /** ustream_init_buf, for a chunk that is used again. */
    method Init()
      requires mem.Length > 0
      modifies this, mem
      ensures next == null && AsChunk() == Cleared(old(mem[..]))
    {
      next, data, tail := null, 0, 0;
      mem[0] := 0;
    }

    /** The memmove of ustream_prepare_buf. */
    method MoveToFront()
      requires data <= tail <= mem.Length
      modifies this`data, this`tail, mem
      ensures AsChunk() == Squeezed(old(AsChunk()))
    {
      var len := tail - data;
      forall k | 0 <= k < len {
        mem[k] := mem[data + k];
      }
      data, tail := 0, len;
    }

    /** Bytes written behind the data. */
    method Overwrite(bytes: seq<Byte>)
      requires tail + |bytes| <= mem.Length
      modifies mem
      ensures var c := old(AsChunk());
              AsChunk() == c.(mem := c.mem[..c.tail] + bytes + c.mem[c.tail + |bytes|..])
    {
      forall k | 0 <= k < |bytes| {
        mem[tail + k] := bytes[k];
      }
    }

    /** The memcpy of ustream_write_buffered. */
    method Store(bytes: seq<Byte>)
      requires tail + |bytes| <= mem.Length
      modifies this`tail, mem
      ensures var c := old(AsChunk());
              AsChunk() == c.(mem := c.mem[..c.tail] + bytes + c.mem[c.tail + |bytes|..], tail := c.tail + |bytes|)
    {
      Overwrite(bytes);
      tail := tail + |bytes|;
    }

    ghost function AsChunk(): Chunk
      reads this, mem
    {
      Chunk(mem[..], data, tail)
    }
  }

  /** The chunks in list order, the list as a value, and the memory it is in. */
  datatype Model = Model(spine: seq<Buf>, list: List, repr: set<object>)

  class BufList {
    var head: Buf?
    var dataTail: Buf?
    var tail: Buf?
    var buffers: int
    var dataBytes: int
    const minBuffers: int
    const maxBuffers: int
    const bufferLen: nat
    ghost var model: Model

    ghost predicate Owned()
      reads this
    {
      && this in model.repr
      && Apart(model.spine) && (forall i :: 0 <= i < |model.spine| ==> model.spine[i] in model.repr && model.spine[i].mem in model.repr)
    }

    ghost predicate Chained()
      reads this, model.spine
    {
      && head == (if model.spine == [] then null else model.spine[0])
      && tail == (if model.spine == [] then null else model.spine[|model.spine| - 1])
      && (forall i {:trigger model.spine[i].next} :: 0 <= i < |model.spine| ==> model.spine[i].next == if i + 1 < |model.spine| then model.spine[i + 1] else null)
      && -1 <= model.list.dt < |model.spine| && (model.list.dt == -1 <==> model.spine == [])
      && dataTail == (if model.list.dt == -1 then null else model.spine[model.list.dt])
    }

    ghost predicate Shown()
      reads this, model.repr
      requires Owned()
    {
      && buffers == |model.list.chunks| == |model.spine|
      && (forall i :: 0 <= i < |model.spine| ==> model.spine[i].AsChunk() == model.list.chunks[i])
      && model.list.dataBytes == dataBytes && model.list.minBuffers == minBuffers
      && model.list.maxBuffers == maxBuffers && model.list.bufferLen == bufferLen
    }

    ghost predicate Valid()
      reads this, model.repr
      ensures Valid() ==> this in model.repr
    {
      Owned() && Chained() && Shown()
    }

    constructor (minBuffers: int, maxBuffers: int, bufferLen: nat)
      ensures Valid() && fresh(model.repr) && model.list == List([], -1, 0, minBuffers, maxBuffers, bufferLen)
    {
      head, dataTail, tail, buffers, dataBytes := null, null, null, 0, 0;
      this.minBuffers, this.maxBuffers, this.bufferLen := minBuffers, maxBuffers, bufferLen;
      model := Model([], List([], -1, 0, minBuffers, maxBuffers, bufferLen), {this});
    }

    /** ustream_add_buf */
    method AddBuf(buf: Buf)
      requires Valid() && buf !in model.repr && buf.mem !in model.repr
      modifies model.repr, buf
      ensures Valid() && model.list == Add(old(model.list), old(buf.AsChunk())) && model.repr == old(model.repr) + {buf, buf.mem}
      ensures old(head) != null ==> head == old(head)
    {
      hide Apart;
      ApartAppend(model.spine, buf);
      if model.spine != [] {
        ApartAt(model.spine, |model.spine| - 1);
      }
      buffers := buffers + 1;
      if tail == null {
        head := buf;
      } else {
        tail.next := buf;
      }
      buf.next := null;
      tail := buf;
      if dataTail == null {
        dataTail := head;
      }
      model := Model(model.spine + [buf], Add(model.list, buf.AsChunk()), model.repr + {buf, buf.mem});
    }

    predicate CanAlloc()
      reads this
    {
      maxBuffers <= 0 || buffers < maxBuffers
    }

    /** The first half of ustream_free_buf: the first chunk leaves the list. */
    method Unlink(buf: Buf)
      requires Valid() && head == buf
      modifies this
      ensures Valid() && model.list == Rest(old(model.list)) && model.repr == old(model.repr) - {buf, buf.mem}
      ensures head == old(buf.next)
    {
      hide Apart;
      ApartTail(model.spine);
      assert buf == model.spine[0] && model.spine[0].next == if |model.spine| > 1 then model.spine[1] else null;
      if buf == head {
        head := buf.next;
      }
      if buf == dataTail {
        dataTail := buf.next;
      }
      if buf == tail {
        tail := null;
      }
      buffers := buffers - 1;
      model := Model(model.spine[1..], Rest(model.list), model.repr - {buf, buf.mem});
    }

    /** ustream_free_buf, which every caller applies to the first chunk. */
    method FreeBuf(buf: Buf)
      requires Valid() && head == buf && buf.mem.Length > 0
      modifies model.repr
      ensures Valid() && model.list == FreeHead(old(model.list)) && model.repr <= old(model.repr)
      ensures |old(model.spine)| > 1 ==> head == old(buf.next)
    {
      hide Apart;
      assert buf == model.spine[0] && buf.AsChunk() == model.list.chunks[0];
      Unlink(buf);
      if buffers >= minBuffers {
        return;
      }
      buf.Init();
      AddBuf(buf);
    }

    /** ustream_should_move */
    method ShouldMove(buf: Buf, len: int) returns (move: bool)
      requires Valid() && dataTail == buf && Sound(model.list)
      ensures move == ChunkQueue.ShouldMove(model.list, model.list.dt, len)
    {
      hide Bytes;
      ApartAt(model.spine, model.list.dt);
      assert buf.AsChunk() == model.list.chunks[model.list.dt];
      if buf.data == 0 {
        return false;
      }
      var maxlen, offset := buf.mem.Length, buf.data;
      if offset > maxlen / 2 {
        return true;
      }
      if buf.tail - buf.data < 32 && offset > maxlen / 4 {
        return true;
      }
      if buf != tail || CanAlloc() {
        return false;
      }
      return buf.mem.Length - buf.tail < len;
    }

    /** After a change inside chunk `i` alone, the list is as before but for that chunk. */
    ghost method Note(i: nat)
      requires Owned() && Chained() && i < |model.spine| == |model.list.chunks| == buffers
      requires forall k :: 0 <= k < |model.spine| && k != i ==> model.spine[k].AsChunk() == model.list.chunks[k]
      requires model.list.minBuffers == minBuffers && model.list.maxBuffers == maxBuffers && model.list.bufferLen == bufferLen
      modifies this`model
      ensures Valid() && model.spine == old(model.spine) && model.repr == old(model.repr)
      ensures model.list == old(model.list).(dataBytes := dataBytes,
                chunks := old(model.list.chunks)[i := model.spine[i].AsChunk()])
    {
      hide Apart;
      model := model.(list := model.list.(dataBytes := dataBytes, chunks := model.list.chunks[i := model.spine[i].AsChunk()]));
    }

    /** The squeezing at the start of ustream_prepare_buf. */
    method Squeeze(buf: Buf, len: int)
      requires Valid() && Sound(model.list) && dataTail == buf
      modifies this`model, buf`data, buf`tail, buf.mem
      ensures Valid() && model.spine == old(model.spine) && model.repr == old(model.repr)
      ensures model.list == ChunkQueue.Squeeze(old(model.list), len)
    {
      hide Bytes, Apart;
      var move := ShouldMove(buf, len);
      if move {
        ApartAt(model.spine, model.list.dt);
        assert buf.AsChunk() == model.list.chunks[model.list.dt];
        buf.MoveToFront();
        Note(model.list.dt);
      }
    }

    /** ustream_alloc_default; `allocs` is what the allocator has to give, and `rest` what it has then. */
    method Alloc(allocs: Allocs) returns (ok: bool, rest: Allocs)
      requires Valid() && bufferLen > 0 && GoodAllocs(allocs, bufferLen)
      modifies model.repr
      ensures Valid() && fresh(model.repr - old(model.repr))
      ensures ok == (ChunkQueue.CanAlloc(old(model.list)) && allocs != [])
      ensures !ok ==> model == old(model) && rest == allocs && dataTail == old(dataTail)
      ensures ok ==> rest == allocs[1..] && model.list == Add(old(model.list), Cleared(allocs[0]))
    {
      hide Apart;
      if !CanAlloc() || allocs == [] {
        return false, allocs;
      }
      var buf := new Buf(allocs[0]);
      AddBuf(buf);
      return true, allocs[1..];
    }

    /** The middle of ustream_prepare_buf: room in the chunk being filled, or a chunk behind it. */
    method Usable(buf: Buf) returns (ok: bool)
      requires Valid() && dataTail == buf
      modifies this`model, this`dataTail
      ensures Valid() && model.spine == old(model.spine) && model.repr == old(model.repr)
      ensures var l := old(model.list);
              var full := l.chunks[l.dt].tail == |l.chunks[l.dt].mem|;
              && ok == (!full || l.dt + 1 < |l.chunks|)
              && model.list == if full && ok then l.(dt := l.dt + 1) else l
    {
      hide Apart;
      assert buf == model.spine[model.list.dt] && buf.AsChunk() == model.list.chunks[model.list.dt];
      if buf.tail != buf.mem.Length {
        return true;
      }
      assert model.spine[model.list.dt].next == buf.next;
      if buf.next != null {
        dataTail := buf.next;
        model := model.(list := model.list.(dt := model.list.dt + 1));
        return true;
      }
      return false;
    }

    /** `data_tail = tail` */
    method FillLast()
      requires Valid() && model.list.chunks != []
      modifies this`dataTail, this`model
      ensures Valid() && model.repr == old(model.repr)
      ensures model.list == old(model.list).(dt := |old(model.list).chunks| - 1)
    {
      hide Apart;
      dataTail := tail;
      model := model.(list := model.list.(dt := |model.list.chunks| - 1));
    }

    /** ustream_prepare_buf */
    method PrepareBuf(len: int, allocs: Allocs) returns (ok: bool, rest: Allocs)
      requires Valid() && Sound(model.list) && GoodAllocs(allocs, bufferLen)
      modifies model.repr
      ensures Valid() && fresh(model.repr - old(model.repr))
      ensures (ok, model.list, rest) == PrepareFrom(old(model.list), len, allocs)
    {
      hide Bytes, Apart, Owned, Chained, Shown;
      Shape();
      if dataTail != null {
        var buf := dataTail;
        Squeeze(buf, len);
        ok := Usable(buf);
        if ok {
          return true, allocs;
        }
      }
      ok, rest := Alloc(allocs);
      if ok {
        FillLast();
      }
    }

    lemma Shape()
      requires Valid()
      ensures |model.spine| == |model.list.chunks| && model.list.dataBytes == dataBytes
      ensures model.list.bufferLen == bufferLen && this in model.repr
      ensures dataTail == null <==> model.list.dt == -1
      ensures dataTail != null ==> 0 <= model.list.dt < |model.spine| && dataTail == model.spine[model.list.dt]
      ensures head == null <==> model.spine == []
      ensures head != null ==> head == model.spine[0]
      ensures forall i :: 0 <= i < |model.spine| ==> model.spine[i] in model.repr && model.spine[i].mem in model.repr
    {
    }

    /** `data_bytes += n` */
    method Count(n: int)
      requires Valid()
      modifies this`dataBytes, this`model
      ensures Valid() && model == old(model.(list := model.list.(dataBytes := model.list.dataBytes + n)))
    {
      hide Apart;
      dataBytes := dataBytes + n;
      model := model.(list := model.list.(dataBytes := dataBytes));
    }

    /** `end - tail` */
    method Room(buf: Buf, ghost k: nat) returns (n: nat)
      requires Valid() && k < |model.spine| && buf == model.spine[k]
      requires model.list.chunks[k].tail <= |model.list.chunks[k].mem|
      ensures n == |model.list.chunks[k].mem| - model.list.chunks[k].tail
    {
      assert buf.AsChunk() == model.list.chunks[k];
      n := buf.mem.Length - buf.tail;
    }

    /** `n` more bytes of chunk `k` belong to the queue, and it becomes the one being filled. */
    method Advance(buf: Buf, n: nat, ghost k: nat) returns (next: Buf?)
      requires Valid() && k < |model.spine| && buf == model.spine[k]
      modifies this`model, this`dataTail, buf`tail
      ensures Valid() && model.spine == old(model.spine) && model.repr == old(model.repr)
      ensures var l := old(model.list);
              model.list == l.(chunks := l.chunks[k := l.chunks[k].(tail := l.chunks[k].tail + n)], dt := k)
      ensures next == if k + 1 < |model.spine| then model.spine[k + 1] else null
    {
      hide Apart;
      ApartAt(model.spine, k);
      assert buf.AsChunk() == model.list.chunks[k];
      buf.tail := buf.tail + n;
      dataTail := buf;
      model := model.(list := model.list.(dt := k));
      Note(k);
      assert model.spine[k].next == buf.next;
      next := buf.next;
    }

    /** ustream_fill_read: `len` bytes lying in the room from `dataTail` on become part of the queue. */
    method FillRead(len: nat)
      requires Valid() && Sound(model.list) && dataTail != null
      requires len <= |Spare(model.list.chunks, model.list.dt)|
      modifies model.repr
      ensures Valid() && model.repr == old(model.repr)
      ensures model.list == ChunkQueue.FillRead(old(model.list), len)
    {
      hide Bytes, Apart, Spare, Fill, Owned, Chained, Shown;
      var buf := dataTail;
      ghost var k, was := model.list.dt, model.list;
      Shape();
      Count(len);
      var left: nat := len;
      var go := true;
      while go
        invariant Valid() && model.spine == old(model.spine) && model.repr == old(model.repr)
        invariant |model.list.chunks| == |model.spine|
        invariant model.list == was.(dataBytes := was.dataBytes + len, chunks := model.list.chunks, dt := model.list.dt)
        invariant forall i :: 0 <= i < |model.spine| ==> model.list.chunks[i].tail <= |model.list.chunks[i].mem|
        invariant go ==> 0 <= k < |model.spine| && buf == model.spine[k]
        invariant go ==> left <= |Spare(model.list.chunks, k)|
        invariant go ==> Fill(model.list.chunks, k, left) == Fill(was.chunks, was.dt, len)
        invariant !go ==> (model.list.chunks, model.list.dt) == Fill(was.chunks, was.dt, len)
        decreases if go then |model.spine| - k else -1
      {
        FillStep(model.list.chunks, k, left);
        var maxlen := Room(buf, k);
        if left < maxlen {
          maxlen := left;
        }
        left := left - maxlen;
        buf := Advance(buf, maxlen, k);
        k := k + 1;
        go := left > 0;
      }
    }

    /** `data += n` in the first chunk. */
    method Skip(buf: Buf, n: nat)
      requires Valid() && head == buf
      modifies this`model, buf`data
      ensures Valid() && model.repr == old(model.repr)
      ensures var l := old(model.list);
              model.list == l.(chunks := l.chunks[0 := l.chunks[0].(data := l.chunks[0].data + n)])
    {
      hide Apart;
      ApartAt(model.spine, 0);
      assert buf.AsChunk() == model.list.chunks[0];
      buf.data := buf.data + n;
      Note(0);
    }

    /** `tail - data` of the first chunk, and what it holds. */
    method Extent(buf: Buf) returns (n: int, next: Buf?)
      requires Valid() && head == buf
      ensures model.spine != [] && n == model.list.chunks[0].tail - model.list.chunks[0].data && next == buf.next
      ensures next == if |model.spine| > 1 then model.spine[1] else null
      ensures buf.mem.Length == |model.list.chunks[0].mem|
    {
      assert buf == model.spine[0] && buf.AsChunk() == model.list.chunks[0];
      assert model.spine[0].next == buf.next;
      n, next := buf.tail - buf.data, buf.next;
    }

    /** What the first chunk holds, as it is handed to `write`. */
    method HeadBytes(buf: Buf) returns (bytes: seq<Byte>)
      requires Valid() && Sound(model.list) && head == buf
      ensures model.list.chunks != [] && bytes == Live(model.list.chunks[0])
    {
      assert buf == model.spine[0] && buf.AsChunk() == model.list.chunks[0];
      bytes := buf.mem[buf.data..buf.tail];
    }

    /** ustream_consume */
    method Consume(len: nat)
      requires Valid() && ChunkQueue.Valid(model.list) && len <= |Held(model.list)|
      modifies model.repr
      ensures Valid() && model.repr <= old(model.repr)
      ensures model.list == ChunkQueue.Consume(old(model.list), len)
    {
      hide Bytes, Apart, Owned, Chained, Shown, Drop, Laid, FreeHead;
      Shape();
      if len == 0 {
        return;
      }
      var buf := head;
      Count(-(len as int));
      var left := len;
      ghost var want := Drop(model.list, len);
      var go := true;
      while go
        invariant Valid() && model.repr <= old(model.repr)
        invariant go ==> Sound(model.list) && 0 < left <= |Held(model.list)| && buf == head
        invariant go ==> Drop(model.list, left) == want
        invariant !go ==> model.list == want
        decreases if go then left else -1
      {
        Shape();
        DropSizes(model.list, left);
        DropStep(model.list, left);
        var n, next := Extent(buf);
        if left < n {
          Skip(buf, left);
          go := false;
        } else {
          left := left - n;
          FreeBuf(buf);
          Shape();
          buf := next;
          go := left > 0;
        }
      }
    }

    /** ustream_get_read_buf: the first chunk, if it holds anything, and how much. */
    method GetReadBuf() returns (buf: Buf?, len: nat)
      requires Valid() && Sound(model.list)
      ensures len == |ReadBuf(model.list)| && (buf == null <==> len == 0)
      ensures buf != null ==> buf in model.repr && buf.mem in model.repr
                              && buf.data + len <= buf.mem.Length && buf.mem[buf.data..buf.data + len] == ReadBuf(model.list)
    {
      hide Bytes, Apart;
      buf, len := null, 0;
      if head != null {
        assert head.AsChunk() == model.list.chunks[0];
        len := head.tail - head.data;
        if len > 0 {
          buf := head;
        }
      }
    }

    /** One round of ustream_read. */
    method ReadSome(out: array<Byte>, at: nat, max: nat) returns (n: nat)
      requires Valid() && ChunkQueue.Valid(model.list) && out !in model.repr && at + max <= out.Length
      modifies model.repr, out
      ensures Valid() && ChunkQueue.Valid(model.list) && model.repr <= old(model.repr)
      ensures n <= max && n <= |Held(old(model.list))| && (n == 0 <==> max == 0 || Held(old(model.list)) == [])
      ensures out[..] == Splice(old(out[..]), at, Held(old(model.list))[..n])
      ensures Held(model.list) == Held(old(model.list))[n..]
    {
      hide Bytes, Apart, Owned, Chained, Shown, ChunkQueue.Consume, Laid;
      ReadBufFirst(model.list);
      var buf, len := GetReadBuf();
      if buf == null {
        return 0;
      }
      n := if len > max then max else len;
      assert buf.mem[buf.data..buf.data + n] == Held(model.list)[..n];
      Copy(out, at, buf.mem, buf.data, n);
      ConsumeKeeps(model.list, n);
      Consume(n);
    }

    /** ustream_read: bytes move from the front of the queue into `out`. */
    method Read(out: array<Byte>, buflen: nat) returns (len: nat)
      requires Valid() && ChunkQueue.Valid(model.list) && out !in model.repr && buflen <= out.Length
      modifies model.repr, out
      ensures Valid() && ChunkQueue.Valid(model.list) && model.repr <= old(model.repr)
      ensures len == Min(buflen, |Held(old(model.list))|)
      ensures out[..] == Splice(old(out[..]), 0, Held(old(model.list))[..len])
      ensures Held(model.list) == Held(old(model.list))[len..]
    {
      hide Bytes, Apart, Owned, Chained, Shown, Sound, Splice;
      SpliceNothing(out[..], Held(model.list));
      len := 0;
      ghost var was, before := Held(model.list), out[..];
      var go := true;
      while go
        invariant Valid() && ChunkQueue.Valid(model.list) && model.repr <= old(model.repr)
        invariant len <= buflen && len <= |was| && Held(model.list) == was[len..]
        invariant out[..] == Splice(before, 0, was[..len])
        invariant !go ==> len == Min(buflen, |was|)
        decreases go, buflen - len
      {
        var n := ReadSome(out, len, buflen - len);
        SpliceTwice(before, was, len, n);
        len := len + n;
        go := n > 0 && len < buflen;
      }
    }

    /** The room that ustream_reserve reports: from the tail of the chunk being filled to its end. */
    method Reserved() returns (maxlen: nat)
      requires Valid() && Sound(model.list) && dataTail != null
      ensures maxlen == model.list.bufferLen - model.list.chunks[model.list.dt].tail
    {
      assert dataTail.AsChunk() == model.list.chunks[model.list.dt];
      maxlen := dataTail.mem.Length - dataTail.tail;
    }

    /** What a read system call does with the room that ustream_reserve gave it. */
    method Deposit(data: seq<Byte>)
      requires Valid() && Sound(model.list) && dataTail != null
      requires model.list.chunks[model.list.dt].tail + |data| <= model.list.bufferLen
      modifies this`model, model.repr - {this}
      ensures Valid() && model.repr == old(model.repr) && dataTail != null
      ensures model.list == Lying(old(model.list), data)
    {
      hide Bytes, Apart;
      ApartAt(model.spine, model.list.dt);
      var buf := dataTail;
      assert buf.AsChunk() == model.list.chunks[model.list.dt];
      buf.Overwrite(data);
      Note(model.list.dt);
    }

    /** One copy of ustream_write_buffered: as much of `data` as the chunk being filled has room for. */
    method Append(data: seq<Byte>) returns (n: nat)
      requires Valid() && Sound(model.list) && dataTail != null
      modifies this`model, this`dataBytes, model.repr
      ensures Valid() && model.repr == old(model.repr)
      ensures var l := old(model.list);
              && n == Min(|data|, l.bufferLen - l.chunks[l.dt].tail) && model.list == Put(l, data[..n])
    {
      hide Bytes, Apart;
      ApartAt(model.spine, model.list.dt);
      var buf := dataTail;
      assert buf.AsChunk() == model.list.chunks[model.list.dt];
      n := buf.mem.Length - buf.tail;
      if n > |data| {
        n := |data|;
      }
      buf.Store(data[..n]);
      dataBytes := dataBytes + n;
      Note(model.list.dt);
    }

    /** ustream_write_buffered */
    method WriteBuffered(data: seq<Byte>, allocs: Allocs) returns (wr: nat, rest: Allocs)
      requires Valid() && Sound(model.list) && GoodAllocs(allocs, bufferLen)
      modifies model.repr
      ensures Valid() && fresh(model.repr - old(model.repr))
      ensures (wr, model.list, rest) == OutputQueue.WriteBuffered(old(model.list), data, allocs)
    {
      hide Bytes, Apart, Owned, Chained, Shown, PrepareFrom, Put, Laid;
      wr, rest := 0, allocs;
      Shape();
      while wr < |data|
        invariant wr <= |data| && Valid() && Sound(model.list) && fresh(model.repr - old(model.repr))
        invariant model.list.bufferLen == old(model.list).bufferLen && GoodAllocs(rest, bufferLen)
        invariant var (n, l, a) := OutputQueue.WriteBuffered(model.list, data[wr..], rest);
                  (wr + n, l, a) == OutputQueue.WriteBuffered(old(model.list), data, allocs)
      {
        Shape();
        PrepareFromKeeps(model.list, |data| - wr, rest);
        var ok;
        ok, rest := PrepareBuf(|data| - wr, rest);
        if !ok {
          break;
        }
        Shape();
        ghost var prepared := model.list;
        var n := Append(data[wr..]);
        PutKeeps(prepared, data[wr..][..n]);
        assert data[wr..][n..] == data[wr + n..];
        wr := wr + n;
      }
    }
  }

  lemma FillStep(chunks: seq<Chunk>, k: nat, len: nat)
    requires k < |chunks| && (forall i :: 0 <= i < |chunks| ==> chunks[i].tail <= |chunks[i].mem|)
    requires len <= |Spare(chunks, k)|
    ensures var c := chunks[k];
            var n := Min(len, |c.mem| - c.tail);
            var chunks' := chunks[k := c.(tail := c.tail + n)];
            && (len - n == 0 ==> Fill(chunks, k, len) == (chunks', k))
            && (len - n > 0 ==> k + 1 < |chunks| && len - n <= |Spare(chunks', k + 1)|
                                && Fill(chunks, k, len) == Fill(chunks', k + 1, len - n))
  {
    var c := chunks[k];
    var n := Min(len, |c.mem| - c.tail);
    SpareAfter(chunks, chunks[k := c.(tail := c.tail + n)], k);
  }

  lemma DropSizes(l: List, len: nat)
    requires Sound(l) && 0 < len <= |Held(l)|
    ensures l.chunks != [] && 0 < |Live(l.chunks[0])| <= |Held(l)| && |l.chunks[0].mem| > 0
    ensures l.chunks[0].tail - l.chunks[0].data == |Live(l.chunks[0])|
    ensures len >= |Live(l.chunks[0])| ==>
              Sound(FreeHead(l)) && |Held(FreeHead(l))| == |Held(l)| - |Live(l.chunks[0])|
    ensures len > |Live(l.chunks[0])| ==> |l.chunks| > 1
  {
    hide Bytes, FreeHead;
    FreeHeadHeld(l, len);
    HeldHead(l);
    if |l.chunks| == 1 {
      OnlyChunk(l);
    }
  }

  /** One round of the loop of ustream_consume. */
  lemma DropStep(l: List, len: nat)
    requires Sound(l) && 0 < len <= |Held(l)|
    requires l.chunks != [] && |l.chunks[0].mem| > 0
    requires var n := l.chunks[0].tail - l.chunks[0].data; len > n > 0 ==> Sound(FreeHead(l)) && len - n <= |Held(FreeHead(l))|
    ensures var c := l.chunks[0];
            var n := c.tail - c.data;
            && (len < n ==> Drop(l, len) == l.(chunks := l.chunks[0 := c.(data := c.data + len)]))
            && (len == n ==> Drop(l, len) == FreeHead(l))
            && (len > n > 0 ==> Drop(l, len) == Drop(FreeHead(l), len - n))
  {
    hide Bytes, FreeHead, Held, Sound;
  }
}
