/**
 What the buffer lists of src/libubox/ustream.c do, as functions on values.

 A list is a row of fixed-size chunks. Bytes enter at the chunk `dt` ("data_tail") and leave at
 the first. The operations recycle chunks, squeeze data to the front of a chunk and stop at a
 limit; seen from outside the list is a plain byte queue, `Held`.
 */
module ChunkQueue {

  type Byte = bv8

  /** `data` and `tail` are offsets of the first byte held and of the first byte free. */
  datatype Chunk = Chunk(mem: seq<Byte>, data: nat, tail: nat)

  /** `dt` is the index of the chunk being filled, -1 for an empty list. */
  datatype List = List(chunks: seq<Chunk>, dt: int, dataBytes: int, minBuffers: int, maxBuffers: int, bufferLen: nat)

  predicate GoodChunk(c: Chunk, len: nat) {
    |c.mem| == len > 0 && c.data <= c.tail <= |c.mem| && (c.data == c.tail ==> c.tail == 0)
  }

  /** Chunks before `dt` are full to the end, those after it are empty. */
  predicate Laid(chunks: seq<Chunk>, dt: int, len: nat) {
    && -1 <= dt < |chunks| && (dt == -1 <==> chunks == [])
    && (forall i :: 0 <= i < |chunks| ==> GoodChunk(chunks[i], len))
    && (forall i :: 0 <= i < dt ==> chunks[i].tail == len)
    && (forall i :: dt < i < |chunks| ==> chunks[i].tail == 0)
  }

  function Live(c: Chunk): seq<Byte>
    requires c.data <= c.tail <= |c.mem|
  {
    c.mem[c.data..c.tail]
  }

  /** The bytes of all chunks, in order. */
  function Bytes(chunks: seq<Chunk>): seq<Byte>
    requires forall i :: 0 <= i < |chunks| ==> chunks[i].data <= chunks[i].tail <= |chunks[i].mem|
  {
    if chunks == [] then [] else Live(chunks[0]) + Bytes(chunks[1..])
  }

  predicate Sound(l: List) { l.bufferLen > 0 && Laid(l.chunks, l.dt, l.bufferLen) }

  /** The queue. */
  function Held(l: List): seq<Byte>
    requires Sound(l)
  {
    Bytes(l.chunks)
  }

  predicate Valid(l: List) { Sound(l) && l.dataBytes == |Held(l)| }

  // ----- the operations -----

  function Fresh(mem: seq<Byte>): Chunk { Chunk(mem, 0, 0) }

  /** ustream_init_buf: the first byte is cleared. */
  function Cleared(mem: seq<Byte>): Chunk
    requires |mem| > 0
  {
    Chunk(mem[0 := 0], 0, 0)
  }

  predicate CanAlloc(l: List) { l.maxBuffers <= 0 || |l.chunks| < l.maxBuffers }

  function Add(l: List, c: Chunk): List {
    l.(chunks := l.chunks + [c], dt := if l.dt == -1 then 0 else l.dt)
  }

  /** The list without its first chunk. */
  function Rest(l: List): List
    requires l.chunks != []
  {
    var rest := l.chunks[1..];
    l.(chunks := rest, dt := if l.dt == 0 then (if rest == [] then -1 else 0) else l.dt - 1)
  }

  /** ustream_free_buf on the first chunk: given back, or recycled behind the last. */
  function FreeHead(l: List): List
    requires l.chunks != [] && |l.chunks[0].mem| > 0
  {
    var l1 := Rest(l);
    if |l1.chunks| >= l.minBuffers then l1 else Add(l1, Cleared(l.chunks[0].mem))
  }

  /** ustream_should_move */
  predicate ShouldMove(l: List, i: nat, len: int)
    requires i < |l.chunks|
  {
    var c := l.chunks[i];
    c.data != 0
    && (c.data > |c.mem| / 2
        || (c.tail - c.data < 32 && c.data > |c.mem| / 4)
        || (i == |l.chunks| - 1 && !CanAlloc(l) && |c.mem| - c.tail < len))
  }

  /** The data of a chunk moved to its front. */
  function Squeezed(c: Chunk): Chunk
    requires c.data <= c.tail <= |c.mem|
  {
    Chunk(Live(c) + c.mem[c.tail - c.data..], 0, c.tail - c.data)
  }

  function Squeeze(l: List, len: int): List
    requires Sound(l)
  {
    if l.dt >= 0 && ShouldMove(l, l.dt, len) then l.(chunks := l.chunks[l.dt := Squeezed(l.chunks[l.dt])]) else l
  }

  /** ustream_prepare_buf; `mem` is what the allocator would return, if it returns anything. */
  function Prepare(l: List, len: int, allocOk: bool, mem: seq<Byte>): (bool, List)
    requires Sound(l) && |mem| == l.bufferLen
  {
    var l1 := Squeeze(l, len);
    if l1.dt >= 0 && l1.chunks[l1.dt].tail != |l1.chunks[l1.dt].mem| then (true, l1)
    else if l1.dt >= 0 && l1.dt + 1 < |l1.chunks| then (true, l1.(dt := l1.dt + 1))
    else if !CanAlloc(l1) || !allocOk then (false, l1)
    else (true, Add(l1, Cleared(mem)).(dt := |l1.chunks|))
  }

  /** The bytes lying in the room that filling would take. */
  function Spare(chunks: seq<Chunk>, dt: int): seq<Byte>
    requires 0 <= dt <= |chunks|
    requires forall i :: 0 <= i < |chunks| ==> chunks[i].tail <= |chunks[i].mem|
    decreases |chunks| - dt
  {
    if dt == |chunks| then [] else chunks[dt].mem[chunks[dt].tail..] + Spare(chunks, dt + 1)
  }

  function Min(a: int, b: int): int { if a < b then a else b }

  /** ustream_fill_read, but for the count: the loop over chunks from `dt`. */
  function Fill(chunks: seq<Chunk>, dt: int, len: nat): (seq<Chunk>, int)
    requires 0 <= dt < |chunks| && (forall i :: 0 <= i < |chunks| ==> chunks[i].tail <= |chunks[i].mem|)
    requires len <= |Spare(chunks, dt)|
    decreases |chunks| - dt
  {
    var c := chunks[dt];
    var n := Min(len, |c.mem| - c.tail);
    var chunks' := chunks[dt := c.(tail := c.tail + n)];
    if len - n == 0 then (chunks', dt)
    else
      SpareAfter(chunks, chunks', dt);
      Fill(chunks', dt + 1, len - n)
  }

  lemma {:induction false} SpareAfter(chunks: seq<Chunk>, chunks': seq<Chunk>, dt: int)
    requires 0 <= dt < |chunks| == |chunks'| && chunks' == chunks[dt := chunks'[dt]]
    requires forall i :: 0 <= i < |chunks| ==> chunks[i].tail <= |chunks[i].mem| && chunks'[i].tail <= |chunks'[i].mem|
    ensures Spare(chunks', dt + 1) == Spare(chunks, dt + 1)
  {
    SpareSame(chunks, chunks', dt + 1);
  }

  lemma {:induction false} SpareSame(chunks: seq<Chunk>, chunks': seq<Chunk>, dt: int)
    requires 0 <= dt <= |chunks| == |chunks'|
    requires forall i :: 0 <= i < |chunks| ==> chunks[i].tail <= |chunks[i].mem| && chunks'[i].tail <= |chunks'[i].mem|
    requires forall i :: dt <= i < |chunks| ==> chunks'[i] == chunks[i]
    ensures Spare(chunks', dt) == Spare(chunks, dt)
    decreases |chunks| - dt
  {
    if dt < |chunks| {
      SpareSame(chunks, chunks', dt + 1);
    }
  }

  function FillRead(l: List, len: nat): List
    requires Sound(l) && l.dt >= 0 && len <= |Spare(l.chunks, l.dt)|
  {
    var (chunks, dt) := Fill(l.chunks, l.dt, len);
    l.(chunks := chunks, dt := dt, dataBytes := l.dataBytes + len)
  }

  /** The loop of ustream_consume. */
  function Drop(l: List, len: nat): List
    requires Sound(l) && 0 < len <= |Held(l)|
    decreases len
  {
    var c := l.chunks[0];
    var n := c.tail - c.data;
    if len < n then l.(chunks := l.chunks[0 := c.(data := c.data + len)])
    else
      FreeHeadHeld(l, len);
      var l1 := FreeHead(l);
      if len - n == 0 then l1 else Drop(l1, len - n)
  }

  /** ustream_consume, within what is held. */
  function Consume(l: List, len: nat): List
    requires Valid(l) && len <= |Held(l)|
  {
    if len == 0 then l else Drop(l.(dataBytes := l.dataBytes - len), len)
  }

  // ----- the operations on the queue -----

  lemma {:induction false} BytesAppend(a: seq<Chunk>, b: seq<Chunk>)
    requires forall i :: 0 <= i < |a| ==> a[i].data <= a[i].tail <= |a[i].mem|
    requires forall i :: 0 <= i < |b| ==> b[i].data <= b[i].tail <= |b[i].mem|
    ensures Bytes(a + b) == Bytes(a) + Bytes(b)
    decreases |a|
  {
    if a == [] {
      assert a + b == b;
    } else {
      assert (a + b)[1..] == a[1..] + b;
      BytesAppend(a[1..], b);
    }
  }

  lemma {:induction false} BytesEmpty(a: seq<Chunk>)
    requires forall i :: 0 <= i < |a| ==> a[i].data <= a[i].tail <= |a[i].mem| && a[i].data == a[i].tail
    ensures Bytes(a) == []
    decreases |a|
  {
    if a != [] {
      BytesEmpty(a[1..]);
    }
  }

  /** Changing one chunk changes its stretch of the queue. */
  lemma {:induction false} BytesUpdate(a: seq<Chunk>, i: nat, c: Chunk)
    requires forall k :: 0 <= k < |a| ==> a[k].data <= a[k].tail <= |a[k].mem|
    requires i < |a| && c.data <= c.tail <= |c.mem|
    ensures Bytes(a) == Bytes(a[..i]) + Live(a[i]) + Bytes(a[i + 1..])
    ensures Bytes(a[i := c]) == Bytes(a[..i]) + Live(c) + Bytes(a[i + 1..])
  {
    OneChunk(a, i);
    OneChunk(a[i := c], i);
    assert a[i := c][..i] == a[..i] && a[i := c][i + 1..] == a[i + 1..];
  }

  lemma OneChunk(a: seq<Chunk>, i: nat)
    requires forall k :: 0 <= k < |a| ==> a[k].data <= a[k].tail <= |a[k].mem|
    requires i < |a|
    ensures Bytes(a) == Bytes(a[..i]) + Live(a[i]) + Bytes(a[i + 1..])
  {
    assert a == a[..i] + a[i..] && a[i..][1..] == a[i + 1..];
    BytesAppend(a[..i], a[i..]);
  }

  /** If anything is held, the first chunk holds something. */
  lemma HeadHolds(l: List)
    requires Sound(l)
    ensures Held(l) == [] <==> (l.chunks == [] || l.chunks[0].data == l.chunks[0].tail)
  {
    if l.chunks != [] && l.chunks[0].data == l.chunks[0].tail {
      assert l.dt == 0;
      BytesEmpty(l.chunks);
    } else if l.chunks != [] {
      assert |Live(l.chunks[0])| > 0;
    }
  }

  /** Giving back or recycling a first chunk that holds something takes what it holds off the queue. */
  lemma FreeHeadSound(l: List)
    requires Sound(l) && l.chunks != [] && |Live(l.chunks[0])| > 0
    ensures Sound(FreeHead(l)) && Held(FreeHead(l)) == Bytes(l.chunks[1..])
    ensures Held(l) == Live(l.chunks[0]) + Held(FreeHead(l))
  {
    hide Bytes;
    var rest := l.chunks[1..];
    var c := Cleared(l.chunks[0].mem);
    BytesAppend(rest, [c]);
    BytesEmpty([c]);
    HeldHead(l);
  }

  lemma HeldHead(l: List)
    requires Sound(l) && l.chunks != []
    ensures Held(l) == Live(l.chunks[0]) + Bytes(l.chunks[1..])
  {
  }

  lemma FreeHeadHeld(l: List, len: nat)
    requires Sound(l) && 0 < len <= |Held(l)|
    ensures l.chunks != [] && |Live(l.chunks[0])| > 0
    ensures Sound(FreeHead(l)) && Held(FreeHead(l)) == Held(l)[|Live(l.chunks[0])|..]
  {
    hide FreeHead, Bytes;
    HeadHolds(l);
    FreeHeadSound(l);
  }

  lemma SqueezeKeeps(l: List, len: int)
    requires Sound(l)
    ensures var l1 := Squeeze(l, len);
            && Sound(l1) && Held(l1) == Held(l) && l1 == l.(chunks := l1.chunks) && |l1.chunks| == |l.chunks|
  {
    if l.dt >= 0 && ShouldMove(l, l.dt, len) {
      var c := l.chunks[l.dt];
      assert Live(Squeezed(c)) == Live(c);
      BytesUpdate(l.chunks, l.dt, Squeezed(c));
    }
  }

  /** Preparing makes room behind what is held, or finds none; it moves no byte of the queue. */
  lemma PrepareKeeps(l: List, len: int, allocOk: bool, mem: seq<Byte>)
    requires Sound(l) && |mem| == l.bufferLen
    ensures var (ok, l') := Prepare(l, len, allocOk, mem);
            && Sound(l') && Held(l') == Held(l)
            && l' == l.(chunks := l'.chunks, dt := l'.dt)
            && (ok ==> l'.dt >= 0 && l'.chunks[l'.dt].tail < l.bufferLen)
  {
    hide Bytes;
    SqueezeKeeps(l, len);
    hide Squeeze;
    var l1 := Squeeze(l, len);
    BytesAppend(l1.chunks, [Cleared(mem)]);
    BytesEmpty([Cleared(mem)]);
  }

  lemma OnlyChunk(l: List)
    requires Sound(l) && |l.chunks| == 1
    ensures Held(l) == Live(l.chunks[0])
  {
    HeldHead(l);
    BytesEmpty(l.chunks[1..]);
  }

  /** A failed preparation of a list limited to one chunk means that the chunk is full to the last byte. */
  lemma PrepareFull(l: List, mem: seq<Byte>)
    requires Sound(l) && |mem| == l.bufferLen && l.maxBuffers == 1 && |l.chunks| <= 1
    ensures Prepare(l, 1, true, mem).0 <==> |Held(l)| != l.bufferLen
    ensures |Prepare(l, 1, true, mem).1.chunks| <= 1
  {
    SqueezeKeeps(l, 1);
    var l1 := Squeeze(l, 1);
    if l.chunks != [] {
      OnlyChunk(l1);
    }
  }

  /** There is no chunk behind the one being filled, and no byte free at the end of that. */
  predicate Used(l: List)
    requires Sound(l)
  {
    l.dt + 1 == |l.chunks| && (l.dt >= 0 ==> l.chunks[l.dt].tail == l.bufferLen)
  }

  /**
   Room for a byte is refused exactly if there is none behind the data and none can be had: no other chunk may
   be added, and nothing has been read from the last, or one may, but the allocator has none and so little has
   been read that the data is not moved.
   */
  lemma PrepareIff(l: List, len: int, allocOk: bool, mem: seq<Byte>)
    requires Sound(l) && |mem| == l.bufferLen && len > 0
    ensures Prepare(l, len, allocOk, mem).0 <==>
              || !Used(l) || (CanAlloc(l) && allocOk)
              || (l.dt >= 0 && (if CanAlloc(l) then ShouldMove(l, l.dt, len) else l.chunks[l.dt].data > 0))
  {
  }

  /** A chunk is added only if there is no room otherwise, and never one more than the limit. */
  lemma PrepareCount(l: List, len: int, allocOk: bool, mem: seq<Byte>)
    requires Sound(l) && |mem| == l.bufferLen && len > 0
    ensures var l' := Prepare(l, len, allocOk, mem).1;
            && |l.chunks| <= |l'.chunks| <= |l.chunks| + 1
            && (|l'.chunks| > |l.chunks| ==> Used(l) && allocOk && (l.maxBuffers <= 0 || |l'.chunks| <= l.maxBuffers))
  {
  }

  lemma {:induction false} FillKeeps(chunks: seq<Chunk>, dt: int, len: nat, size: nat)
    requires 0 <= dt < |chunks| && Laid(chunks, dt, size) && len <= |Spare(chunks, dt)|
    ensures var (chunks', dt') := Fill(chunks, dt, len);
            && Laid(chunks', dt', size) && |chunks'| == |chunks| && dt <= dt'
            && Bytes(chunks') == Bytes(chunks) + Spare(chunks, dt)[..len]
    decreases |chunks| - dt
  {
    hide Bytes, Live, Spare;
    SpareOne(chunks, dt);
    var c := chunks[dt];
    var n := Min(len, |c.mem| - c.tail);
    var chunks1 := chunks[dt := c.(tail := c.tail + n)];
    FillOne(chunks, dt, n, size);
    var room, rest := c.mem[c.tail..], Spare(chunks, dt + 1);
    if len - n != 0 {
      SpareAfter(chunks, chunks1, dt);
      assert room[..n] == room;
      FillKeeps(chunks1, dt + 1, len - n, size);
      assert (room + rest)[..len] == room + rest[..len - n];
    } else {
      assert (room + rest)[..len] == room[..n];
    }
  }

  lemma SpareOne(chunks: seq<Chunk>, dt: int)
    requires 0 <= dt < |chunks| && (forall i :: 0 <= i < |chunks| ==> chunks[i].tail <= |chunks[i].mem|)
    ensures Spare(chunks, dt) == chunks[dt].mem[chunks[dt].tail..] + Spare(chunks, dt + 1)
    ensures dt + 1 == |chunks| ==> Spare(chunks, dt + 1) == []
  {
  }

  lemma FillOne(chunks: seq<Chunk>, dt: int, n: nat, size: nat)
    requires 0 <= dt < |chunks| && Laid(chunks, dt, size) && chunks[dt].tail + n <= size
    ensures var c := chunks[dt];
            var chunks1 := chunks[dt := c.(tail := c.tail + n)];
            && Laid(chunks1, dt, size) && (c.tail + n == size && dt + 1 < |chunks| ==> Laid(chunks1, dt + 1, size))
            && Bytes(chunks1) == Bytes(chunks) + c.mem[c.tail..][..n]
  {
    hide Bytes;
    var c := chunks[dt];
    var c' := c.(tail := c.tail + n);
    BytesUpdate(chunks, dt, c');
    BytesEmpty(chunks[dt + 1..]);
    assert Live(c') == Live(c) + c.mem[c.tail..][..n];
  }

  lemma FillReadKeeps(l: List, len: nat)
    requires Valid(l) && l.dt >= 0 && len <= |Spare(l.chunks, l.dt)|
    ensures var l' := FillRead(l, len);
            && Valid(l') && Held(l') == Held(l) + Spare(l.chunks, l.dt)[..len]
            && l' == l.(chunks := l'.chunks, dt := l'.dt, dataBytes := l'.dataBytes) && |l'.chunks| == |l.chunks|
  {
    FillKeeps(l.chunks, l.dt, len, l.bufferLen);
  }

  lemma {:induction false} DropKeeps(l: List, len: nat)
    requires Sound(l) && 0 < len <= |Held(l)|
    ensures var l' := Drop(l, len);
            && Sound(l') && Held(l') == Held(l)[len..]
            && l' == l.(chunks := l'.chunks, dt := l'.dt)
            && |l'.chunks| <= |l.chunks|
    decreases len
  {
    hide Bytes, FreeHead;
    FreeHeadHeld(l, len);
    HeldHead(l);
    FreeHeadCount(l);
    var n := l.chunks[0].tail - l.chunks[0].data;
    if len < n {
      SkipKeeps(l, len);
    } else if len - n != 0 {
      DropKeeps(FreeHead(l), len - n);
    }
  }

  /** Taking some of what the first chunk holds. */
  lemma SkipKeeps(l: List, len: nat)
    requires Sound(l) && l.chunks != [] && len < |Live(l.chunks[0])|
    ensures var c := l.chunks[0];
            var l' := l.(chunks := l.chunks[0 := c.(data := c.data + len)]);
            len <= |Held(l)| && Sound(l') && Held(l') == Held(l)[len..]
  {
    hide Bytes;
    HeldHead(l);
    var c := l.chunks[0];
    var c' := c.(data := c.data + len);
    BytesUpdate(l.chunks, 0, c');
    BytesEmpty([]);
    assert Live(c') == Live(c)[len..];
    assert l.chunks[..0] == [];
  }

  lemma FreeHeadCount(l: List)
    requires l.chunks != [] && |l.chunks[0].mem| > 0
    ensures var l' := FreeHead(l); l' == l.(chunks := l'.chunks, dt := l'.dt) && |l'.chunks| <= |l.chunks|
  {
  }

  /** How many of the first chunks hold no more than the next `len` bytes. */
  function Emptied(chunks: seq<Chunk>, len: nat): nat
    requires forall i :: 0 <= i < |chunks| ==> chunks[i].data <= chunks[i].tail <= |chunks[i].mem|
  {
    if len == 0 || chunks == [] || len < |Live(chunks[0])| then 0
    else 1 + Emptied(chunks[1..], len - |Live(chunks[0])|)
  }

  lemma {:induction false} EmptiedBefore(a: seq<Chunk>, c: Chunk, len: nat)
    requires forall i :: 0 <= i < |a| ==> a[i].data <= a[i].tail <= |a[i].mem|
    requires c.data <= c.tail <= |c.mem| && len <= |Bytes(a)|
    ensures Emptied(a + [c], len) == Emptied(a, len) <= |a|
    decreases |a|
  {
    if a != [] {
      assert (a + [c])[1..] == a[1..] + [c];
      if |Live(a[0])| <= len {
        EmptiedBefore(a[1..], c, len - |Live(a[0])|);
      }
    }
  }

  function Max(a: int, b: int): int { if a < b then b else a }

  /** Emptied chunks are given back, but for `minBuffers`, which are recycled. */
  lemma {:induction false} DropCount(l: List, len: nat)
    requires Sound(l) && 0 < len <= |Held(l)|
    ensures Emptied(l.chunks, len) <= |l.chunks|
    ensures |Drop(l, len).chunks| == Max(|l.chunks| - Emptied(l.chunks, len), Min(|l.chunks|, l.minBuffers))
    decreases len
  {
    hide Bytes, Live, FreeHead, Emptied;
    FreeHeadHeld(l, len);
    HeldHead(l);
    var rest, n := l.chunks[1..], |Live(l.chunks[0])|;
    EmptiedOne(l.chunks, len);
    LiveLength(l.chunks[0]);
    if n <= len {
      FreeHeadIs(l);
      var l1 := FreeHead(l);
      assert rest + [] == rest;
      EmptiedBefore(rest, Cleared(l.chunks[0].mem), len - n);
      if n < len {
        DropCount(l1, len - n);
      }
    }
  }

  lemma LiveLength(c: Chunk)
    requires c.data <= c.tail <= |c.mem|
    ensures |Live(c)| == c.tail - c.data
  {
  }

  lemma FreeHeadIs(l: List)
    requires l.chunks != [] && |l.chunks[0].mem| > 0
    ensures FreeHead(l).minBuffers == l.minBuffers
    ensures FreeHead(l).chunks == l.chunks[1..] + if |l.chunks| - 1 >= l.minBuffers then [] else [Cleared(l.chunks[0].mem)]
  {
  }

  lemma EmptiedOne(chunks: seq<Chunk>, len: nat)
    requires chunks != [] && len > 0 && forall i :: 0 <= i < |chunks| ==> chunks[i].data <= chunks[i].tail <= |chunks[i].mem|
    ensures Emptied(chunks, len) == if len < |Live(chunks[0])| then 0 else 1 + Emptied(chunks[1..], len - |Live(chunks[0])|)
    ensures Emptied(chunks[1..], 0) == 0
  {
  }

  lemma ConsumeKeeps(l: List, len: nat)
    requires Valid(l) && len <= |Held(l)|
    ensures var l' := Consume(l, len);
            && Valid(l') && Held(l') == Held(l)[len..]
            && l' == l.(chunks := l'.chunks, dt := l'.dt, dataBytes := l'.dataBytes) && |l'.chunks| <= |l.chunks|
  {
    if len > 0 {
      DropKeeps(l.(dataBytes := l.dataBytes - len), len);
    }
  }

  /** How many chunks a list has after consuming. */
  lemma ConsumeCount(l: List, len: nat)
    requires Valid(l) && len <= |Held(l)|
    ensures |Consume(l, len).chunks| == Max(|l.chunks| - Emptied(l.chunks, len), Min(|l.chunks|, l.minBuffers))
  {
    hide Bytes, Drop;
    if len > 0 {
      DropCount(l.(dataBytes := l.dataBytes - len), len);
    }
  }

  /** ustream_get_read_buf: what the first chunk holds. */
  function ReadBuf(l: List): seq<Byte>
    requires Sound(l)
  {
    if l.chunks == [] then [] else Live(l.chunks[0])
  }

  lemma ReadBufFirst(l: List)
    requires Valid(l)
    ensures ReadBuf(l) <= Held(l)
    ensures ReadBuf(l) == [] <==> l.dataBytes == 0
    ensures |l.chunks| <= 1 ==> ReadBuf(l) == Held(l)
  {
    HeadHolds(l);
    if |l.chunks| == 1 {
      OnlyChunk(l);
    }
  }
}
