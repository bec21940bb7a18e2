/**
 The codec objects and the read callback of src/libubox/xstream.c and src/kiss_codec.c as they are
 in memory, tied to the functions of KissCodec and Xstream.
 */
module XStreamObject {
  import opened Options
  import opened ChunkQueue
  import opened OutputQueue
  import opened UstreamFd
  import opened Ustream
  import opened Stream
  import opened Xstream
  import KissCodec
  import KissFraming

  class KissDecoder {
    var phase: KissCodec.Phase
    var port: Byte
    var cmd: Byte
    var crc: Byte
    var escape: bool
    /** One slot more than the source's buffer: it stores there before it tests the length. */
    const data: array<Byte>
    var dataLen: nat
    /** Whether the receive timeout is pending. */
    var timer: bool

    ghost predicate Valid()
      reads this
    {
      data.Length == KissCodec.SIZE + 1 && dataLen <= KissCodec.SIZE
    }

    ghost function Value(): KissCodec.Kiss
      reads this, data
      requires Valid()
    {
      KissCodec.Kiss(phase, KissCodec.Address(port, cmd), crc, escape, data[..dataLen], timer)
    }

    constructor ()
      ensures Valid() && fresh(data) && Value() == KissCodec.Reset()
    {
      data := new Byte[KissCodec.SIZE + 1];
      phase, port, cmd, crc, escape, dataLen, timer := KissCodec.Idle, 0, 0, 0, false, 0, false;
    }

    /** kiss_reset, also the timeout's callback. */
    method Reset()
      requires data.Length == KissCodec.SIZE + 1
      modifies this
      ensures Valid() && Value() == KissCodec.Reset()
    {
      if timer {
        timer := false;
      }
      dataLen, port, cmd, crc := 0, 0, 0, 0;
      phase, escape := KissCodec.Idle, false;
    }

    method Put(c: Byte)
      requires Valid()
      modifies this`dataLen, data
      ensures dataLen == old(dataLen) + 1 && data.Length == KissCodec.SIZE + 1
      ensures data[..dataLen] == old(data[..dataLen]) + [c]
    {
      data[dataLen] := c;
      dataLen := dataLen + 1;
    }

    /** kiss_decode_byte; true when a frame is complete. */
    method DecodeByte(c: Byte) returns (done: bool)
      requires Valid()
      modifies this, data
      ensures Valid() && (Value(), done) == KissCodec.DecodeByte(old(Value()), c)
    {
      hide KissCodec.Tally, KissCodec.Store;
      match phase {
        case Idle =>
          if c == KissFraming.FEND {
            Reset();
            timer := true;
            phase := KissCodec.InHead;
          }
        case InHead =>
          cmd := c & 0x0F;
          port := (c >> 4) & 0x0F;
          phase := KissCodec.InBody;
        case InBody =>
          done := BodyByte(c);
          if done {
            return;
          }
      }
      Count();
      done := false;
    }

    /** The end of kiss_decode_byte. */
    method Count()
      requires Valid()
      modifies this`crc
      ensures Valid() && Value() == KissCodec.Tally(old(Value()))
    {
      if dataLen > 0 {
        crc := KissCodec.Plus(crc, data[dataLen - 1]);
      }
    }

    /** The part of kiss_decode_byte for a body. */
    method BodyByte(c: Byte) returns (done: bool)
      requires Valid() && phase == KissCodec.InBody
      modifies this, data
      ensures Valid()
      ensures var (k, d) := KissCodec.DecodeByte(old(Value()), c);
              d == done && k == if done then Value() else KissCodec.Tally(Value())
    {
      hide KissCodec.Tally, KissCodec.Store;
      if c == KissFraming.FEND {
        done := Close();
        return;
      }
      if c == KissFraming.FESC {
        escape := true;
      } else if c == KissFraming.TFESC && escape {
        StoreByte(KissFraming.FESC);
        escape := false;
      } else if c == KissFraming.TFEND && escape {
        StoreByte(KissFraming.FEND);
        escape := false;
      } else {
        StoreByte(c);
      }
      return false;
    }

    /** The end of a frame; a control frame whose count is off is dropped. */
    method Close() returns (done: bool)
      requires Valid()
      modifies this
      ensures Valid() && done == !(old(cmd) != 0 && !old(crc) != 0)
      ensures Value() == if done then old(Value()).(phase := KissCodec.Idle, timer := false) else KissCodec.Reset()
    {
      if cmd != 0 && !crc != 0 {
        Reset();
        return false;
      }
      phase, timer := KissCodec.Idle, false;
      return true;
    }

    /** A byte is stored, and only then the length tested. */
    method StoreByte(c: Byte)
      requires Valid()
      modifies this, data
      ensures Valid() && Value() == KissCodec.Store(old(Value()), c)
    {
      Put(c);
      if dataLen > KissCodec.SIZE {
        Reset();
      }
    }

    /** The loop of kiss_decode: whether a frame is complete, and how many bytes are consumed. */
    method Decode(bytes: seq<Byte>) returns (done: bool, len: nat)
      requires Valid()
      modifies this, data
      ensures Valid()
      ensures var (k, out, used) := DecodeKiss(old(Value()), bytes, 0);
              k == Value() && len == used <= |bytes| && out == if done then Some(data[..dataLen]) else None
    {
      hide KissCodec.DecodeByte;
      ghost var before := Value();
      len := 0;
      while len < |bytes|
        invariant Valid() && len <= |bytes| && DecodeKiss(Value(), bytes, len) == DecodeKiss(before, bytes, 0)
      {
        done := DecodeByte(bytes[len]);
        len := len + 1;
        if done {
          return;
        }
      }
      done := false;
    }
  }

  class XStream {
    const stream: Stream
    const kiss: KissDecoder
    const codec: Codec
    var current: Object
    /** Everything handed to the read callback. */
    var objects: seq<seq<Byte>>

    ghost predicate Valid()
      reads this, stream, stream.r, stream.w, stream.r.model.repr, stream.w.model.repr, kiss
    {
      && stream.Valid() && kiss.Valid()
      && this !in stream.r.model.repr && this !in stream.w.model.repr
      && kiss !in stream.r.model.repr && kiss !in stream.w.model.repr
      && kiss.data !in stream.r.model.repr && kiss.data !in stream.w.model.repr
    }

    ghost function Value(): Reader
      reads this, kiss, kiss.data
      requires kiss.Valid()
    {
      Reader(codec, current, kiss.Value())
    }

    /** xstream_init with a codec set. */
    constructor (codec: Codec)
      ensures Valid() && objects == [] && stream.Value() == StartFd() && Value() == Start(codec)
    {
      var s := new Stream();
      stream := s;
      kiss := new KissDecoder();
      this.codec, current, objects := codec, Absent, [];
    }

    /** xstream_decode_crlf: whether a line is complete, the line, and the bytes consumed. */
    method DecodeLine(data: seq<Byte>) returns (done: bool, line: seq<Byte>, len: nat)
      requires kiss.Valid() && codec.Crlf?
      modifies this`current
      ensures Decode(old(Value()), data) == Decoded(Value(), if done then Some(line) else None, len)
    {
      if !current.Line? {
        current := Line(0);
      }
      ghost var at := current.dataLen;
      while current.dataLen < |data|
        invariant current.Line? && at <= current.dataLen && (at <= |data| ==> current.dataLen <= |data|)
        invariant at <= |data| ==> Scan(data, current.dataLen) == Scan(data, at)
        invariant at > |data| ==> current.dataLen == at
        decreases |data| - current.dataLen
      {
        if data[current.dataLen] != LF && data[current.dataLen] != CR {
          current := Line(current.dataLen + 1);
          continue;
        }
        len := current.dataLen + 1;
        line := data[..current.dataLen];
        if codec.keep {
          line := data[..current.dataLen + 1];
          current := Line(current.dataLen + 1);
        }
        return true, line, len;
      }
      return false, [], 0;
    }

    /** The decode function of the codec. */
    method DecodeNext(data: seq<Byte>) returns (done: bool, object_: seq<Byte>, len: nat)
      requires kiss.Valid()
      modifies this`current, kiss, kiss.data
      ensures kiss.Valid() && len <= |data|
      ensures Decode(old(Value()), data) == Decoded(Value(), if done then Some(object_) else None, len)
    {
      match codec {
        case PassThrough =>
          current := Line(|data|);
          return true, data, |data|;
        case Crlf(_) =>
          done, object_, len := DecodeLine(data);
        case KissFrames =>
          if current.Absent? {
            kiss.Reset();
          }
          current := Frame;
          done, len := kiss.Decode(data);
          object_ := kiss.data[..kiss.dataLen];
      }
    }

    /** A round of the loop of on_ustream_notify_read; `len` is what it consumed, 0 at the end. */
    method Round() returns (len: nat, ghost out: seq<seq<Byte>>)
      requires Valid() && GoodFd(stream.Value())
      modifies this, stream, stream.r.model.repr, kiss, kiss.data
      ensures Valid() && GoodFd(stream.Value()) && stream.w.model == old(stream.w.model)
      ensures stream.r.model.repr <= old(stream.r.model.repr) && objects == old(objects) + out
      ensures len <= |Held(old(stream.r.model.list))|
      ensures Held(stream.r.model.list) == Held(old(stream.r.model.list))[len..]
      ensures Notify(old(stream.Value()), old(Value())) ==
              if len == 0 then (stream.Value(), Value(), out)
              else var (s, r, later) := Notify(stream.Value(), Value()); (s, r, out + later)
    {
      hide BufList.Valid, Decode, Bytes, Advance, Sound, Notify;
      ghost var s0 := stream.Value();
      NotifyStep(s0, Value());
      ReadBufFirst(s0.input);
      var buf, n := stream.r.GetReadBuf();
      len, out := 0, [];
      if buf == null {
        return;
      }
      var done, object_;
      done, object_, len := DecodeNext(buf.mem[buf.data..buf.data + n]);
      if done {
        objects, out := objects + [object_], [object_];
        current := Absent;
      }
      if len > 0 {
        ConsumedShape(s0, len);
        stream.Consume(len);
      }
    }

    /** on_ustream_notify_read */
    method OnNotifyRead()
      requires Valid() && GoodFd(stream.Value())
      modifies this, stream, stream.r.model.repr, kiss, kiss.data
      ensures Valid() && GoodFd(stream.Value()) && stream.w.model == old(stream.w.model)
      ensures stream.r.model.repr <= old(stream.r.model.repr)
      ensures old(objects) <= objects
      ensures Notify(old(stream.Value()), old(Value())) == (stream.Value(), Value(), objects[|old(objects)|..])
    {
      hide BufList.Valid, Decode, Bytes, Advance, Laid, Notify;
      ghost var s0, r0 := stream.Value(), Value();
      ghost var handed: seq<seq<Byte>> := [];
      stream.r.Shape();
      var bytesTotal, bytesDecoded, go := stream.r.dataBytes, 0, true;
      assert [] + Notify(s0, r0).2 == Notify(s0, r0).2;
      while go && bytesDecoded < bytesTotal
        invariant Valid() && GoodFd(stream.Value()) && stream.w.model == old(stream.w.model)
        invariant stream.r.model.repr <= old(stream.r.model.repr)
        invariant bytesDecoded + |Held(stream.r.model.list)| == bytesTotal && objects == old(objects) + handed
        invariant go ==> var (s, r, later) := Notify(stream.Value(), Value()); (s, r, handed + later) == Notify(s0, r0)
        invariant !go ==> (stream.Value(), Value(), handed) == Notify(s0, r0)
        decreases go, bytesTotal - bytesDecoded
      {
        var len;
        ghost var out;
        len, out := Round();
        ghost var later := Notify(stream.Value(), Value()).2;
        assert handed + (out + later) == (handed + out) + later;
        handed := handed + out;
        bytesDecoded := bytesDecoded + len;
        go := len > 0;
      }
      if go {
        NotifyStep(stream.Value(), Value());
        assert handed + [] == handed;
      }
    }
  }

  /** One round, as the loop is defined. */
  lemma NotifyStep(s: Fd, r: Reader)
    requires GoodFd(s)
    ensures var data := ReadBuf(s.input);
            var d := Decode(r, data);
            var r1 := if d.object_.Some? then d.reader.(current := Absent) else d.reader;
            var out := if d.object_.Some? then [d.object_.value] else [];
            && |data| <= |Held(s.input)|
            && (data == [] ==> Notify(s, r) == (s, r, []))
            && (data != [] && d.used == 0 ==> Notify(s, r) == (s, r1, out))
            && (data != [] && 0 < d.used <= |data| ==>
                GoodFd(Advance(s, Consumed(d.used)))
                && Notify(s, r) == var (s2, r2, later) := Notify(Advance(s, Consumed(d.used)), r1); (s2, r2, out + later))
  {
    hide Decode, Advance, Bytes;
    ReadBufFirst(s.input);
    var d := Decode(r, ReadBuf(s.input));
    if 0 < d.used <= |ReadBuf(s.input)| {
      AdvanceKeeps(s, Consumed(d.used));
    }
  }
}
