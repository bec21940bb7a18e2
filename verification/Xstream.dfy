/**
 The codec loop of src/libubox/xstream.c over the single read buffer of a stream, on values: the
 line codec cuts the input at every CR and LF and the KISS codec into frames, however the bytes
 arrive.
 */
module Xstream {
  import opened Options
  import opened ChunkQueue
  import opened OutputQueue
  import opened UstreamFd
  import KissCodec
  import KissFraming

  datatype Codec = PassThrough | Crlf(keep: bool) | KissFrames

  /** ctx->currentObj; a line in hand remembers how far it has been looked at. */
  datatype Object = Absent | Line(dataLen: nat) | Frame

  datatype Reader = Reader(codec: Codec, current: Object, kiss: KissCodec.Kiss)

  /** What a decode function does: the reader then, the object it completes, the bytes it consumes. */
  datatype Decoded = Decoded(reader: Reader, object_: Option<seq<Byte>>, used: nat)

  const CR: Byte := 13
  const LF: Byte := 10

  predicate Terminator(c: Byte) { c == CR || c == LF }

  /** The first CR or LF from position `k` on, or the end. */
  function Scan(data: seq<Byte>, k: nat): (r: nat)
    requires k <= |data|
    ensures k <= r <= |data| && (forall i :: k <= i < r ==> !Terminator(data[i]))
    ensures r < |data| ==> Terminator(data[r])
    decreases |data| - k
  {
    if k == |data| || Terminator(data[k]) then k else Scan(data, k + 1)
  }

  /** xstream_decode_crlf */
  function DecodeCrlf(r: Reader, data: seq<Byte>): Decoded
    requires r.codec.Crlf?
  {
    var at := if r.current.Line? then r.current.dataLen else 0;
    if at >= |data| then Decoded(r.(current := Line(at)), None, 0)
    else
      var k := Scan(data, at);
      if k == |data| then Decoded(r.(current := Line(k)), None, 0)
      else Decoded(r.(current := Line(if r.codec.keep then k + 1 else k)),
                   Some(if r.codec.keep then data[..k + 1] else data[..k]), k + 1)
  }

  /** kiss_decode, over its bytes from `i` on. */
  function DecodeKiss(k: KissCodec.Kiss, data: seq<Byte>, i: nat): (KissCodec.Kiss, Option<seq<Byte>>, nat)
    requires i <= |data|
    decreases |data| - i
  {
    if i == |data| then (k, None, i)
    else
      var (k1, done) := KissCodec.DecodeByte(k, data[i]);
      if done then (k1, Some(k1.data), i + 1) else DecodeKiss(k1, data, i + 1)
  }

  /** The decode function of the reader's codec. */
  function Decode(r: Reader, data: seq<Byte>): Decoded {
    match r.codec
    case PassThrough => Decoded(r.(current := Line(|data|)), Some(data), |data|)
    case Crlf(_) => DecodeCrlf(r, data)
    case KissFrames =>
      var (k, out, used) := DecodeKiss(if r.current.Absent? then KissCodec.Reset() else r.kiss, data, 0);
      Decoded(r.(current := Frame, kiss := k), out, used)
  }

  /** on_ustream_notify_read: the stream, the reader and what was handed to the read callback. */
  function Notify(s: Fd, r: Reader): (Fd, Reader, seq<seq<Byte>>)
    requires GoodFd(s)
    decreases |Held(s.input)|
  {
    HeadHolds(s.input);
    ReadBufFirst(s.input);
    var data := ReadBuf(s.input);
    if data == [] then (s, r, [])
    else
      var d := Decode(r, data);
      var r1 := if d.object_.Some? then d.reader.(current := Absent) else d.reader;
      var out := if d.object_.Some? then [d.object_.value] else [];
      if d.used == 0 || d.used > |data| then (s, r1, out)
      else
        AdvanceKeeps(s, Consumed(d.used));
        var (s2, r2, rest) := Notify(Advance(s, Consumed(d.used)), r1);
        (s2, r2, out + rest)
  }

  // ----- the same on the bytes alone -----

  function Digest(r: Reader, data: seq<Byte>): (Reader, seq<seq<Byte>>, seq<Byte>)
    decreases |data|
  {
    if data == [] then (r, [], [])
    else
      var d := Decode(r, data);
      var r1 := if d.object_.Some? then d.reader.(current := Absent) else d.reader;
      var out := if d.object_.Some? then [d.object_.value] else [];
      if d.used == 0 || d.used > |data| then (r1, out, data)
      else
        var (r2, rest, left) := Digest(r1, data[d.used..]);
        (r2, out + rest, left)
  }

  /** With one buffer the loop sees all that is held. */
  lemma {:induction false} NotifyDigests(s: Fd, r: Reader)
    requires GoodFd(s) && Fitting(s)
    ensures var (s', r', out) := Notify(s, r);
            var (r2, out2, left) := Digest(r, Held(s.input));
            && r' == r2 && out == out2
            && GoodFd(s') && Fitting(s') && Held(s'.input) == left
            && s'.block.user == s.block.user && s'.block.eof == s.block.eof
            && s'.input.bufferLen == s.input.bufferLen
            && (left != Held(s.input) ==> !s'.block.full)
            && (Watched(s) ==> Watched(s'))
    decreases |Held(s.input)|
  {
    hide Decode, Bytes;
    ReadBufFirst(s.input);
    var data := Held(s.input);
    if data != [] {
      var d := Decode(r, data);
      if 0 < d.used <= |data| {
        AdvanceKeeps(s, Consumed(d.used));
        AdvanceFits(s, Consumed(d.used));
        ConsumedShape(s, d.used);
        NotifyDigests(Advance(s, Consumed(d.used)), if d.object_.Some? then d.reader.(current := Absent) else d.reader);
      }
    }
  }

  lemma ConsumedShape(s: Fd, n: nat)
    requires GoodFd(s) && 0 < n <= |Held(s.input)|
    ensures var s' := Advance(s, Consumed(n));
            && GoodFd(s') && Held(s'.input) == Held(s.input)[n..] && s'.input.bufferLen == s.input.bufferLen
            && s'.block == s.block.(full := false)
  {
    hide Consume, Bytes;
    ConsumeKeeps(s.input, n);
  }

  // ----- lines -----

  /** The pieces of a text that end with a CR or LF, with that byte or without it. */
  function Lines(s: seq<Byte>, keep: bool): seq<seq<Byte>>
    decreases |s|
  {
    var k := Scan(s, 0);
    if k == |s| then [] else [s[..if keep then k + 1 else k]] + Lines(s[k + 1..], keep)
  }

  /** What comes after the last CR or LF. */
  function Unended(s: seq<Byte>): seq<Byte>
    decreases |s|
  {
    var k := Scan(s, 0);
    if k == |s| then s else Unended(s[k + 1..])
  }

  lemma {:induction false} ScanFrom(s: seq<Byte>, k: nat)
    requires k <= |s| && (forall i :: 0 <= i < k ==> !Terminator(s[i]))
    ensures Scan(s, 0) == Scan(s, k)
  {
    var a, b := Scan(s, 0), Scan(s, k);
    assert a < |s| ==> Terminator(s[a]);
    assert b < |s| ==> Terminator(s[b]);
  }

  /** A text cut in two is cut into the same lines. */
  lemma {:induction false} LinesAppend(a: seq<Byte>, b: seq<Byte>, keep: bool)
    ensures Lines(a + b, keep) == Lines(a, keep) + Lines(Unended(a) + b, keep)
    ensures Unended(a + b) == Unended(Unended(a) + b)
    decreases |a|
  {
    hide Lines, Unended;
    var k := Scan(a, 0);
    LinesStep(a, keep);
    if k < |a| {
      ScanAppend(a, b);
      LinesStep(a + b, keep);
      assert (a + b)[k + 1..] == a[k + 1..] + b && (a + b)[..k] == a[..k] && (a + b)[..k + 1] == a[..k + 1];
      LinesAppend(a[k + 1..], b, keep);
      var line, rest := [a[..if keep then k + 1 else k]], Lines(a[k + 1..], keep);
      var more := Lines(Unended(a) + b, keep);
      assert line + (rest + more) == (line + rest) + more;
    } else {
      assert [] + Lines(a + b, keep) == Lines(a + b, keep);
    }
  }

  lemma ScanAppend(a: seq<Byte>, b: seq<Byte>)
    requires Scan(a, 0) < |a|
    ensures Scan(a + b, 0) == Scan(a, 0)
  {
    var k := Scan(a, 0);
    assert forall i :: 0 <= i < k ==> (a + b)[i] == a[i];
    ScanFrom(a + b, k);
    assert (a + b)[k] == a[k];
  }

  lemma LinesStep(s: seq<Byte>, keep: bool)
    ensures var k := Scan(s, 0);
            && (k == |s| ==> Lines(s, keep) == [] && Unended(s) == s)
            && (k < |s| ==> Lines(s, keep) == [s[..if keep then k + 1 else k]] + Lines(s[k + 1..], keep)
                            && Unended(s) == Unended(s[k + 1..]))
  {
  }

  lemma {:induction false} UnendedShape(s: seq<Byte>)
    ensures forall i :: 0 <= i < |Unended(s)| ==> !Terminator(Unended(s)[i])
    ensures |Unended(s)| <= |s|
    decreases |s|
  {
    var k := Scan(s, 0);
    if k < |s| {
      UnendedShape(s[k + 1..]);
    }
  }

  /** Neither a carriage return nor a line feed. */
  predicate Inline(s: seq<Byte>) { 0x0D !in s && 0x0A !in s }

  function Joined(lines: seq<seq<Byte>>): seq<Byte> {
    if lines == [] then [] else lines[0] + Joined(lines[1..])
  }

  /** A line ends in a carriage return or a line feed, and has no other. */
  predicate IsLine(line: seq<Byte>) {
    line != [] && Inline(line[..|line| - 1]) && line[|line| - 1] in {0x0D, 0x0A}
  }

  lemma FirstLine(s: seq<Byte>)
    ensures var k := Scan(s, 0); if k < |s| then IsLine(s[..k + 1]) && s[..k + 1][..k] == s[..k] else Inline(s)
  {
  }

  /** The lines, and what is not ended, are the text with nothing left out; and without their ends the lines are the same but for that byte. */
  lemma {:induction false} LinesRight(s: seq<Byte>)
    ensures Joined(Lines(s, true)) + Unended(s) == s && Inline(Unended(s))
    ensures forall i :: 0 <= i < |Lines(s, true)| ==> IsLine(Lines(s, true)[i])
    ensures |Lines(s, false)| == |Lines(s, true)|
    ensures forall i :: 0 <= i < |Lines(s, true)| ==> var line := Lines(s, true)[i]; line != [] && Lines(s, false)[i] == line[..|line| - 1]
    decreases |s|
  {
    hide Lines, Unended, Inline, IsLine, Scan;
    var k := Scan(s, 0);
    LinesStep(s, true);
    LinesStep(s, false);
    FirstLine(s);
    if k < |s| {
      LinesRight(s[k + 1..]);
      var line, rest := s[..k + 1], Lines(s[k + 1..], true);
      assert ([line] + rest)[1..] == rest && s == line + s[k + 1..];
      assert line + (Joined(rest) + Unended(s[k + 1..])) == (line + Joined(rest)) + Unended(s[k + 1..]);
    }
  }

  /** How much of the held bytes a line reader has looked at. */
  function Seen(r: Reader): nat { if r.current.Line? then r.current.dataLen else 0 }

  /** A line reader that has looked at all of `held` and found no end of line in it. */
  predicate Reading(r: Reader, held: seq<Byte>) {
    r.codec.Crlf? && !r.current.Frame? && Seen(r) <= |held| && (forall i :: 0 <= i < Seen(r) ==> !Terminator(held[i]))
  }

  /** Decoding goes on where the reader has stopped looking, and finds what it would find from the front. */
  lemma CrlfFinds(r: Reader, s: seq<Byte>)
    requires Reading(r, s) && s != []
    ensures var k := Scan(s, 0);
            Decode(r, s) ==
              if k == |s| then Decoded(r.(current := Line(k)), None, 0)
              else Decoded(r.(current := Line(if r.codec.keep then k + 1 else k)),
                           Some(if r.codec.keep then s[..k + 1] else s[..k]), k + 1)
  {
    hide DecodeKiss;
    ScanFrom(s, Seen(r));
  }

  lemma {:induction false} DigestLines(r: Reader, s: seq<Byte>)
    requires Reading(r, s)
    ensures var (r', out, left) := Digest(r, s);
            && out == Lines(s, r.codec.keep) && left == Unended(s)
            && r'.codec == r.codec && !r'.current.Frame? && Seen(r') == |left|
    decreases |s|
  {
    hide Lines, Unended, Decode, Scan;
    LinesStep(s, r.codec.keep);
    if s != [] {
      var k := Scan(s, 0);
      CrlfFinds(r, s);
      if k < |s| {
        DigestLines(Decode(r, s).reader.(current := Absent), s[k + 1..]);
      }
    }
  }

  // ----- frames -----

  function Context(r: Reader): KissCodec.Ctx { KissCodec.Ctx(!r.current.Absent?, r.kiss) }

  lemma {:induction false} DecodeKissFeeds(k: KissCodec.Kiss, data: seq<Byte>, i: nat)
    requires i < |data|
    ensures var (k', out, used) := DecodeKiss(k, data, i);
            && i < used <= |data| && (out.None? ==> used == |data|)
            && KissCodec.Feed(KissCodec.Ctx(true, k), data[i..used])
               == (KissCodec.Ctx(out.None?, k'), if out.Some? then [out.value] else [])
    decreases |data| - i
  {
    hide KissCodec.DecodeByte;
    var x := KissCodec.Ctx(true, k);
    var (k1, done) := KissCodec.DecodeByte(k, data[i]);
    var used := DecodeKiss(k, data, i).2;
    if done || i + 1 == |data| {
      assert data[i..i + 1] == [data[i]];
      KissCodec.FeedTwo(x, data[i], 0);
    } else {
      DecodeKissFeeds(k1, data, i + 1);
      assert data[i..used] == [data[i]] + data[i + 1..used];
      KissCodec.FeedTwo(x, data[i], 0);
      KissCodec.FeedAppend(x, [data[i]], data[i + 1..used]);
      assert KissCodec.Feed(x, [data[i]]) == (KissCodec.Ctx(true, k1), []);
      var rest := KissCodec.Feed(KissCodec.Ctx(true, k1), data[i + 1..used]).1;
      assert [] + rest == rest;
    }
  }

  /** The decoder that starts afresh is the one with nothing in hand. */
  lemma FeedFresh(r: Reader, s: seq<Byte>)
    requires s != []
    ensures KissCodec.Feed(Context(r), s)
         == KissCodec.Feed(KissCodec.Ctx(true, if r.current.Absent? then KissCodec.Reset() else r.kiss), s)
  {
  }

  /** The loop over a KISS stream consumes everything and delivers what the bytes, one by one, complete. */
  lemma {:induction false} DigestFrames(r: Reader, s: seq<Byte>)
    requires r.codec.KissFrames? && !r.current.Line?
    ensures var (r', out, left) := Digest(r, s);
            && left == [] && r'.codec == r.codec && !r'.current.Line?
            && KissCodec.Feed(Context(r), s) == (Context(r'), out)
    decreases |s|
  {
    hide DecodeKiss, KissCodec.Feed, KissCodec.Feed1;
    if s == [] {
      FeedNothing(Context(r));
    } else {
      DecodeKissFeeds(if r.current.Absent? then KissCodec.Reset() else r.kiss, s, 0);
      var d := Decode(r, s);
      var r1 := if d.object_.Some? then d.reader.(current := Absent) else d.reader;
      assert s == s[..d.used] + s[d.used..] && s[0..d.used] == s[..d.used];
      FeedFresh(r, s[..d.used]);
      KissCodec.FeedAppend(Context(r), s[..d.used], s[d.used..]);
      DigestFrames(r1, s[d.used..]);
    }
  }

  lemma FeedNothing(x: KissCodec.Ctx)
    ensures KissCodec.Feed(x, []) == (x, [])
  {
  }

  // ----- whole runs -----

  /** One read of the descriptor and, if it brought anything, the loop over what is held. */
  function Poll(s: Fd, r: Reader, allocs: Allocs, answer: Input): (Fd, Reader, seq<seq<Byte>>)
    requires GoodFd(s) && GoodOp(s, ReadOnce(allocs, answer))
  {
    DoReadKeeps(s, allocs, answer);
    var s1 := DoRead(s, allocs, answer);
    if Received(s, ReadOnce(allocs, answer)) == [] then (s1, r, []) else Notify(s1, r)
  }

  datatype Read = Read(allocs: Allocs, answer: Input)

  predicate GoodReads(calls: seq<Read>, len: nat) {
    forall k :: 0 <= k < |calls| ==> calls[k].allocs != [] && GoodAllocs(calls[k].allocs, len)
                                     && (calls[k].answer.Got? ==> calls[k].answer.data != [])
  }

  /** What a run leaves: the stream, the reader, the objects delivered and the bytes received. */
  datatype Outcome = Outcome(fd: Fd, reader: Reader, objects: seq<seq<Byte>>, received: seq<Byte>)

  function Run(s: Fd, r: Reader, calls: seq<Read>): Outcome
    requires GoodFd(s) && Fitting(s) && GoodReads(calls, s.input.bufferLen)
    decreases |calls|
  {
    if calls == [] then Outcome(s, r, [], [])
    else
      PollKeeps(s, r, calls[0]);
      var (s1, r1, out) := Poll(s, r, calls[0].allocs, calls[0].answer);
      var o := Run(s1, r1, calls[1..]);
      o.(objects := out + o.objects, received := Received(s, ReadOnce(calls[0].allocs, calls[0].answer)) + o.received)
  }

  lemma PollKeeps(s: Fd, r: Reader, read: Read)
    requires GoodFd(s) && Fitting(s) && GoodReads([read], s.input.bufferLen)
    ensures GoodOp(s, ReadOnce(read.allocs, read.answer))
    ensures var (s1, r1, out) := Poll(s, r, read.allocs, read.answer);
            var fresh_ := Received(s, ReadOnce(read.allocs, read.answer));
            && GoodFd(s1) && Fitting(s1) && s1.input.bufferLen == s.input.bufferLen
            && (fresh_ == [] ==> r1 == r && out == [] && Held(s1.input) == Held(s.input))
            && (fresh_ != [] ==> (r1, out, Held(s1.input)) == Digest(r, Held(s.input) + fresh_))
            && s1.block.user == s.block.user
  {
    hide DoRead, Received, Digest, Notify;
    assert [read][0] == read;
    DoReadKeeps(s, read.allocs, read.answer);
    DoReadFits(s, read.allocs, read.answer);
    DoReadUser(s, read.allocs, read.answer);
    NotifyDigests(DoRead(s, read.allocs, read.answer), r);
  }

  lemma DoReadUser(s: Fd, allocs: Allocs, answer: Input)
    requires GoodFd(s) && GoodOp(s, ReadOnce(allocs, answer))
    ensures DoRead(s, allocs, answer).block.user == s.block.user
  {
    hide PrepareFrom, Put;
    PrepareFromKeeps(s.input, 1, allocs);
  }

  /** The objects delivered are the lines of `text`, and what is held is the rest of it. */
  predicate CutInto(o: Outcome, text: seq<Byte>, keep: bool) {
    && GoodFd(o.fd) && o.objects == Lines(text, keep) && Held(o.fd.input) == Unended(text)
    && Reading(o.reader, Held(o.fd.input)) && Seen(o.reader) == |Held(o.fd.input)|
  }

  /**
   Whatever pieces a text arrives in, a line stream delivers its lines and holds the rest; the
   bytes of a line are never split nor joined with those of another.
   */
  lemma {:induction false} RunLines(s: Fd, r: Reader, calls: seq<Read>)
    requires GoodFd(s) && Fitting(s) && GoodReads(calls, s.input.bufferLen)
    requires Reading(r, Held(s.input)) && Seen(r) == |Held(s.input)|
    ensures var o := Run(s, r, calls); CutInto(o, Held(s.input) + o.received, r.codec.keep)
    decreases |calls|
  {
    hide Digest, Poll, Bytes, Lines, Unended, Received;
    var held := Held(s.input);
    if calls == [] {
      assert held + [] == held;
      NoLines(held, r.codec.keep);
    } else {
      assert calls[0] == [calls[0]][0];
      PollKeeps(s, r, calls[0]);
      var (s1, r1, out) := Poll(s, r, calls[0].allocs, calls[0].answer);
      var fresh_ := Received(s, ReadOnce(calls[0].allocs, calls[0].answer));
      NoLines(held, r.codec.keep);
      if fresh_ != [] {
        DigestLines(r, held + fresh_);
        UnendedShape(held + fresh_);
      } else {
        assert held + fresh_ == held;
      }
      RunLines(s1, r1, calls[1..]);
      var later := Run(s1, r1, calls[1..]).received;
      LinesAppend(held + fresh_, later, r.codec.keep);
      assert held + (fresh_ + later) == (held + fresh_) + later;
      assert [] + Lines(held + fresh_ + later, r.codec.keep) == Lines(held + fresh_ + later, r.codec.keep);
    }
  }

  lemma NoLines(s: seq<Byte>, keep: bool)
    requires forall i :: 0 <= i < |s| ==> !Terminator(s[i])
    ensures Lines(s, keep) == [] && Unended(s) == s
  {
  }

  /** Reading a line stream comes to a stop for want of room iff 4096 bytes have come without an end of line. */
  lemma StuckIff(s: Fd, allocs: Allocs, data: seq<Byte>)
    requires GoodFd(s) && Fitting(s) && !s.block.user && allocs != [] && data != []
    requires GoodOp(s, ReadOnce(allocs, Got(data)))
    ensures Received(s, ReadOnce(allocs, Got(data))) == [] <==> |Held(s.input)| == s.input.bufferLen
  {
    hide Bytes, Prepare;
    PrepareFull(s.input, allocs[0]);
    PrepareFromKeeps(s.input, 1, allocs);
  }

  /** Whatever pieces they arrive in, a KISS stream delivers what its bytes, one by one, complete. */
  lemma {:induction false} RunFrames(s: Fd, r: Reader, calls: seq<Read>)
    requires GoodFd(s) && Fitting(s) && GoodReads(calls, s.input.bufferLen)
    requires r.codec.KissFrames? && !r.current.Line? && Held(s.input) == []
    ensures var o := Run(s, r, calls);
            && KissCodec.Feed(Context(r), o.received) == (Context(o.reader), o.objects)
            && GoodFd(o.fd) && Held(o.fd.input) == []
    decreases |calls|
  {
    hide Digest, Poll, Bytes, KissCodec.Feed, Received;
    FeedNothing(Context(r));
    if calls != [] {
      assert calls[0] == [calls[0]][0];
      PollKeeps(s, r, calls[0]);
      var (s1, r1, out) := Poll(s, r, calls[0].allocs, calls[0].answer);
      var fresh_ := Received(s, ReadOnce(calls[0].allocs, calls[0].answer));
      assert [] + fresh_ == fresh_;
      if fresh_ != [] {
        DigestFrames(r, fresh_);
      }
      RunFrames(s1, r1, calls[1..]);
      KissCodec.FeedAppend(Context(r), fresh_, Run(s1, r1, calls[1..]).received);
    }
  }

  /** The state a stream and its reader start in. */
  function Start(codec: Codec): Reader { Reader(codec, Absent, KissCodec.Reset()) }

  function StartFd(): Fd { Init(List([], -1, 0, 1, 1, 4096), List([], -1, 0, 2, -1, 256)) }

  /** A text of lines that fit the read buffer, end bytes included, never stops the reader on the way. */
  lemma NeverStuck(text: seq<Byte>, more: seq<Byte>, size: nat)
    requires size > 0 && Unended(text + more) == []
    requires forall i :: 0 <= i < |Lines(text + more, true)| ==> |Lines(text + more, true)[i]| <= size
    ensures |Unended(text)| < size
  {
    hide Lines, Unended;
    var u := Unended(text);
    LinesAppend(text, more, true);
    UnendedShape(text);
    LinesStep(u + more, true);
    var k := Scan(u + more, 0);
    if u != [] {
      assert k < |u + more|;
      assert forall i :: 0 <= i < |u| ==> (u + more)[i] == u[i];
      var line := Lines(text + more, true)[|Lines(text, true)|];
      assert line == (u + more)[..k + 1];
    }
  }

  /** A line stream from its start: the lines of whatever has been received, and the rest in the buffer. */
  lemma LineStream(keep: bool, calls: seq<Read>)
    requires GoodReads(calls, 4096)
    ensures GoodFd(StartFd()) && Fitting(StartFd())
    ensures var o := Run(StartFd(), Start(Crlf(keep)), calls); CutInto(o, o.received, keep)
  {
    hide Run, CutInto, Bytes;
    var s := StartFd();
    StartHolds();
    RunLines(s, Start(Crlf(keep)), calls);
    var o := Run(s, Start(Crlf(keep)), calls);
    assert Held(s.input) + o.received == o.received;
  }

  /** A KISS stream from its start: the accepted bodies of whatever row of frames has been received. */
  lemma FrameStream(calls: seq<Read>, fs: seq<KissCodec.Sent>, tail: seq<Byte>)
    requires GoodReads(calls, 4096)
    requires (forall f :: f in fs ==> KissCodec.GoodSent(f)) && KissFraming.FEND !in tail
    ensures GoodFd(StartFd()) && Fitting(StartFd())
    ensures var o := Run(StartFd(), Start(KissFrames), calls);
            o.received == KissCodec.Transmitted(fs) + tail ==> o.objects == KissCodec.AcceptedBodies(fs)
  {
    hide Run, Bytes, KissCodec.Feed, KissCodec.Transmitted, KissCodec.AcceptedBodies;
    var s := StartFd();
    StartHolds();
    RunFrames(s, Start(KissFrames), calls);
    KissCodec.Frames(Context(Start(KissFrames)), fs, tail);
  }

  lemma StartHolds()
    ensures GoodFd(StartFd()) && Fitting(StartFd()) && Held(StartFd().input) == []
  {
  }

  // ----- everything that a peer sends -----

  /** What the kernel has for one read: one byte more than `more`, or all that is left. */
  datatype Offer = Offer(allocs: Allocs, more: nat)

  predicate GoodOffers(offers: seq<Offer>, len: nat) {
    forall k :: 0 <= k < |offers| ==> offers[k].allocs != [] && GoodAllocs(offers[k].allocs, len)
  }

  function Offered(offer: Offer, rest: seq<Byte>): Read { Read(offer.allocs, Got(rest[..Min(offer.more + 1, |rest|)])) }

  /** The reads while a peer has `rest` to send: what a read does not take is offered again. */
  function Reads(s: Fd, r: Reader, rest: seq<Byte>, offers: seq<Offer>): (calls: seq<Read>)
    requires GoodFd(s) && Fitting(s) && GoodOffers(offers, s.input.bufferLen)
    ensures GoodReads(calls, s.input.bufferLen)
    decreases |offers|
  {
    if offers == [] || rest == [] then []
    else
      var read := Offered(offers[0], rest);
      PollKeeps(s, r, read);
      var (s1, r1, _) := Poll(s, r, read.allocs, read.answer);
      var got := Received(s, ReadOnce(read.allocs, read.answer));
      GotPrefix(s, read.allocs, read.answer.data);
      [read] + Reads(s1, r1, rest[|got|..], offers[1..])
  }

  lemma GotPrefix(s: Fd, allocs: Allocs, data: seq<Byte>)
    requires GoodFd(s) && GoodOp(s, ReadOnce(allocs, Got(data)))
    ensures Received(s, ReadOnce(allocs, Got(data))) <= data
  {
    hide Prepare, Bytes;
    PrepareFromKeeps(s.input, 1, allocs);
  }

  /** All lines of the text, with their ends, have room in the read buffer, and the last has its end. */
  predicate LinesFit(text: seq<Byte>, size: nat) {
    Unended(text) == [] && forall i :: 0 <= i < |Lines(text, true)| ==> |Lines(text, true)[i]| <= size
  }

  lemma {:induction false} ReceivesAll(s: Fd, r: Reader, sent: seq<Byte>, rest: seq<Byte>, offers: seq<Offer>)
    requires GoodFd(s) && Fitting(s) && !s.block.user && s.input.bufferLen > 0 && GoodOffers(offers, s.input.bufferLen)
    requires Reading(r, Held(s.input)) && Seen(r) == |Held(s.input)| && Held(s.input) == Unended(sent)
    requires LinesFit(sent + rest, s.input.bufferLen) && |rest| <= |offers|
    ensures Run(s, r, Reads(s, r, rest, offers)).received == rest
    decreases |offers|
  {
    hide LinesFit, Poll, Received, Lines, Unended, Bytes, Digest;
    if rest != [] {
      var read := Offered(offers[0], rest);
      assert [read][0] == read && GoodReads([read], s.input.bufferLen);
      PollKeeps(s, r, read);
      Progress(s, sent, rest, read);
      var (s1, r1, _) := Poll(s, r, read.allocs, read.answer);
      var got := Received(s, ReadOnce(read.allocs, read.answer));
      DigestLines(r, Held(s.input) + got);
      AfterGot(r, sent, got, r1, Held(s1.input));
      assert sent + rest == (sent + got) + rest[|got|..];
      ReceivesAll(s1, r1, sent + got, rest[|got|..], offers[1..]);
      var calls := Reads(s, r, rest, offers);
      assert calls[0] == read && calls[1..] == Reads(s1, r1, rest[|got|..], offers[1..]);
    }
  }

  /** An offer is never turned down. */
  lemma Progress(s: Fd, sent: seq<Byte>, rest: seq<Byte>, read: Read)
    requires GoodFd(s) && Fitting(s) && !s.block.user && s.input.bufferLen > 0 && Held(s.input) == Unended(sent)
    requires LinesFit(sent + rest, s.input.bufferLen) && rest != [] && read.allocs != [] && read.answer.Got?
    requires read.answer.data != [] && read.answer.data <= rest && GoodOp(s, ReadOnce(read.allocs, read.answer))
    ensures var got := Received(s, ReadOnce(read.allocs, read.answer)); got != [] && got <= rest
  {
    hide Lines, Unended, Received, Bytes;
    NeverStuck(sent, rest, s.input.bufferLen);
    StuckIff(s, read.allocs, read.answer.data);
    GotPrefix(s, read.allocs, read.answer.data);
  }

  lemma AfterGot(r: Reader, sent: seq<Byte>, got: seq<Byte>, r1: Reader, held: seq<Byte>)
    requires held == Unended(Unended(sent) + got)
    requires r1.codec == r.codec && r.codec.Crlf? && !r1.current.Frame? && Seen(r1) == |held|
    ensures held == Unended(sent + got) && Reading(r1, held)
  {
    hide Lines, Unended;
    LinesAppend(sent, got, true);
    UnendedShape(sent + got);
  }

  /**
   A peer that sends lines of at most 4096 bytes, their ends included, gets all of them through, in whatever
   pieces they arrive; and they are delivered as the text is cut at every CR and LF.
   */
  lemma AllLines(keep: bool, text: seq<Byte>, offers: seq<Offer>)
    requires LinesFit(text, 4096) && GoodOffers(offers, 4096) && |text| <= |offers|
    ensures GoodFd(StartFd()) && Fitting(StartFd())
    ensures var o := Run(StartFd(), Start(Crlf(keep)), Reads(StartFd(), Start(Crlf(keep)), text, offers));
            o.received == text && o.objects == Lines(text, keep)
  {
    hide Run, Reads, CutInto, Bytes, LinesFit;
    StartHolds();
    var s, r := StartFd(), Start(Crlf(keep));
    assert [] + text == text;
    NoLines([], true);
    ReceivesAll(s, r, [], text, offers);
    LineStream(keep, Reads(s, r, text, offers));
    CutObjects(Run(s, r, Reads(s, r, text, offers)), text, keep);
  }

  lemma CutObjects(o: Outcome, text: seq<Byte>, keep: bool)
    ensures CutInto(o, text, keep) ==> o.objects == Lines(text, keep)
  {
  }
}
