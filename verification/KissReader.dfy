/**
 The other KISS decoder, src/kiss.c: it keeps a frame's head byte with the payload, closes a frame
 at every FEND, and hands data frames of port 0 to its callback.
 */
module KissReader {
  import opened KissFraming

  /** `buf` is the part of the buffer in use. */
  datatype State = State(escaped: bool, buf: seq<Byte>)

  const RETURN: Byte := 0xFF

  /** kiss_decode_frame: what the callback is given. */
  function DecodeFrame(buf: seq<Byte>): seq<seq<Byte>>
    requires buf != []
  {
    if buf == [RETURN] then [buf]
    else if buf[0] >> 4 > 0 || |buf| < 2 then []
    else if buf[0] & 0x0F == 0 then [buf[1..]]
    else []
  }

  /** How long the buffer may get: maxBufferLen - 2, as a size_t. */
  function Limit(max: nat): nat { if max < 2 then max + 0xFFFF_FFFF_FFFF_FFFE else max - 2 }

  /** kiss_decode_putc */
  function Putc(s: State, c: Byte, max: nat): (State, seq<seq<Byte>>) {
    var buf := if |s.buf| >= Limit(max) then [] else s.buf;
    if c == FEND then (State(false, []), if !s.escaped && buf != [] then DecodeFrame(buf) else [])
    else if c == FESC then (State(true, buf), [])
    else
      var d := if s.escaped && c == TFESC then FESC else if s.escaped && c == TFEND then FEND else c;
      (State(false, buf + [d]), [])
  }

  class KissReader {
    const buffer: array<Byte>
    var bufferLen: nat
    var escaped: bool
    var lastRead: int
    /** What the callback was given. */
    var frames: seq<seq<Byte>>

    ghost predicate Valid()
      reads this
    {
      2 <= buffer.Length && (bufferLen <= buffer.Length - 2 || bufferLen <= 1)
    }

    ghost function Value(): State
      reads this, buffer
      requires Valid()
    {
      State(escaped, buffer[..bufferLen])
    }

    /** kiss_init */
    constructor (size: nat)
      requires size >= 2
      ensures Valid() && fresh(buffer) && buffer.Length == size && Value() == State(false, []) && frames == []
    {
      buffer := new Byte[size];
      bufferLen, escaped, lastRead, frames := 0, false, 0, [];
    }

    /** kiss_run: a frame left open for two seconds is dropped, its escape is not. */
    method Run(now: int)
      requires Valid()
      modifies this`bufferLen
      ensures Valid() && escaped == old(escaped)
      ensures Value() == if now - lastRead > 2000 then State(escaped, []) else old(Value())
    {
      if bufferLen > 0 && now - lastRead > 2000 {
        bufferLen := 0;
      }
    }

    /** kiss_decode_putc */
    method DecodePutc(byte: Byte, now: int)
      requires Valid()
      modifies this, buffer
      ensures Valid()
      ensures var (s, out) := Putc(old(Value()), byte, buffer.Length);
              s == Value() && frames == old(frames) + out
    {
      hide DecodeFrame;
      var c := byte;
      if bufferLen >= Limit(buffer.Length) {
        bufferLen := 0;
      }
      if c == FEND {
        if !escaped && bufferLen > 0 {
          frames := frames + DecodeFrame(buffer[..bufferLen]);
        }
        bufferLen := 0;
        escaped := false;
        return;
      } else if c == FESC {
        escaped := true;
        return;
      } else if c == TFESC {
        if escaped {
          escaped := false;
          c := FESC;
        }
      } else if c == TFEND {
        if escaped {
          escaped := false;
          c := FEND;
        }
      } else if escaped {
        escaped := false;
      }
      Keep(c, now);
    }

    /** The end of kiss_decode_putc. */
    method Keep(c: Byte, now: int)
      requires 2 <= buffer.Length && (bufferLen + 2 < buffer.Length || bufferLen == 0)
      modifies this`bufferLen, this`lastRead, buffer
      ensures Valid() && lastRead == now && buffer[..bufferLen] == old(buffer[..bufferLen]) + [c]
    {
      buffer[bufferLen] := c;
      bufferLen := bufferLen + 1;
      lastRead := now;
    }
  }

  // ----- streams of frames -----

  function Feed(s: State, bytes: seq<Byte>, max: nat): (State, seq<seq<Byte>>)
    decreases |bytes|
  {
    if bytes == [] then (s, [])
    else
      var (s1, out1) := Putc(s, bytes[0], max);
      var (s2, out2) := Feed(s1, bytes[1..], max);
      (s2, out1 + out2)
  }

  lemma {:induction false} FeedAppend(s: State, a: seq<Byte>, b: seq<Byte>, max: nat)
    ensures var (s1, out1) := Feed(s, a, max);
            var (s2, out2) := Feed(s1, b, max);
            Feed(s, a + b, max) == (s2, out1 + out2)
    decreases |a|
  {
    hide Putc;
    if a == [] {
      assert a + b == b && [] + Feed(s, b, max).1 == Feed(s, b, max).1;
    } else {
      assert (a + b)[1..] == a[1..] + b;
      var (s1, out1) := Putc(s, a[0], max);
      FeedAppend(s1, a[1..], b, max);
      var (s2, out2) := Feed(s1, a[1..], max);
      assert out1 + (out2 + Feed(s2, b, max).1) == (out1 + out2) + Feed(s2, b, max).1;
    }
  }

  lemma FeedTwo(s: State, c: Byte, d: Byte, max: nat)
    ensures Feed(s, [c], max) == Putc(s, c, max)
    ensures Feed(s, [c, d], max) == var (s1, o1) := Putc(s, c, max); var (s2, o2) := Putc(s1, d, max); (s2, o1 + o2)
  {
    hide Putc;
    var s1 := Putc(s, c, max).0;
    assert [c][1..] == [] && [c, d][1..] == [d] && [d][1..] == [];
    assert Putc(s, c, max).1 + [] == Putc(s, c, max).1 && Putc(s1, d, max).1 + [] == Putc(s1, d, max).1;
    assert Feed(s1, [d], max) == Putc(s1, d, max);
  }

  /**
   What is left of a run of bytes at its end: each time that there are max - 2 of them in the buffer, they are
   dropped before anything else is done.
   */
  function Cut(s: seq<Byte>, max: nat): seq<Byte>
    decreases |s|
  {
    if max <= 2 then [] else if |s| < max - 2 then s else Cut(s[max - 2..], max)
  }

  /** Escaped bytes pile up as they were before they were escaped, until there are too many; a FEND ends them. */
  lemma {:induction false} Body(buf: seq<Byte>, s: seq<Byte>, max: nat)
    requires max >= 2 && (|buf| <= max - 2 || |buf| <= 1)
    ensures Feed(State(false, buf), Escaped(s) + [FEND], max) == (State(false, []), Given(Cut(buf + s, max)))
    decreases |s|
  {
    hide Putc, Feed, Escape, Given, Cut;
    if s == [] {
      assert buf + s == buf && Escaped(s) + [FEND] == [FEND];
      Fend(buf, max);
    } else {
      BodyByte(buf, s[0], max);
      var buf' := (if |buf| >= max - 2 then [] else buf) + [s[0]];
      FeedAppend(State(false, buf), Escape(s[0]), Escaped(s[1..]) + [FEND], max);
      assert Escape(s[0]) + (Escaped(s[1..]) + [FEND]) == Escaped(s) + [FEND];
      Body(buf', s[1..], max);
      CutOnce(buf, s, max);
      var none: seq<seq<Byte>> := [];
      assert none + Given(Cut(buf + s, max)) == Given(Cut(buf + s, max));
    }
  }

  lemma CutOnce(buf: seq<Byte>, s: seq<Byte>, max: nat)
    requires max >= 2 && (|buf| <= max - 2 || |buf| <= 1) && s != []
    ensures Cut((if |buf| >= max - 2 then [] else buf) + [s[0]] + s[1..], max) == Cut(buf + s, max)
  {
    assert [s[0]] + s[1..] == s;
    if |buf| < max - 2 {
      assert buf + [s[0]] + s[1..] == buf + s;
    } else if max > 2 {
      assert [] + [s[0]] + s[1..] == s && (buf + s)[max - 2..] == s;
    }
  }

  lemma FeedNothing(s: State, max: nat)
    ensures Feed(s, [], max) == (s, [])
  {
  }

  lemma BodyByte(buf: seq<Byte>, c: Byte, max: nat)
    requires max >= 2
    ensures Feed(State(false, buf), Escape(c), max) == (State(false, (if |buf| >= max - 2 then [] else buf) + [c]), [])
  {
    FeedTwo(State(false, buf), Escape(c)[0], TFEND, max);
    FeedTwo(State(false, buf), FESC, TFESC, max);
  }

  /** An escape before any byte but those two is as if it were not there. */
  lemma StrayEscape(buf: seq<Byte>, c: Byte, max: nat)
    requires c != FEND && c != TFEND && c != TFESC && max > 2 && |buf| <= max - 2
    ensures Feed(State(false, buf), [FESC, c], max) == Feed(State(false, buf), [c], max)
  {
    FeedTwo(State(false, buf), FESC, c, max);
    FeedTwo(State(false, buf), c, c, max);
  }

  /** A piece with nothing to escape is its own escaped form. */
  lemma {:induction false} Plain(s: seq<Byte>)
    requires FEND !in s && FESC !in s
    ensures Escaped(s) == s
    decreases |s|
  {
    if s != [] {
      Plain(s[1..]);
    }
  }

  /** What the frame, and the bytes that came before it, give the callback. */
  function Given(buf: seq<Byte>): seq<seq<Byte>> { if buf == [] then [] else DecodeFrame(buf) }

  lemma Fend(buf: seq<Byte>, max: nat)
    requires max >= 2 && (|buf| <= max - 2 || |buf| <= 1)
    ensures Feed(State(false, buf), [FEND], max) == (State(false, []), Given(Cut(buf, max)))
  {
    FeedTwo(State(false, buf), FEND, 0, max);
    assert max > 2 && |buf| == max - 2 ==> buf[max - 2..] == [];
  }

  datatype Sent = Sent(gap: seq<Byte>, port: Byte, cmd: Byte, body: seq<Byte>)

  /** Head byte and gap are not taken for FEND or FESC. */
  predicate GoodSent(f: Sent) {
    && f.port < 16 && f.cmd < 16 && Head(f.port, f.cmd) != FEND && Head(f.port, f.cmd) != FESC
    && FEND !in f.gap && FESC !in f.gap
  }

  function Transmitted(fs: seq<Sent>): seq<Byte> {
    if fs == [] then [] else fs[0].gap + Encode(fs[0].port, fs[0].cmd, fs[0].body) + Transmitted(fs[1..])
  }

  /** Each gap is taken for a frame, and then comes the frame, or what is left of it. */
  function AllGiven(fs: seq<Sent>, max: nat): seq<seq<Byte>> {
    if fs == [] then []
    else Given(Cut(fs[0].gap, max)) + Given(Cut([Head(fs[0].port, fs[0].cmd)] + fs[0].body, max)) + AllGiven(fs[1..], max)
  }

  /** A run of bytes with its escapes, up to a FEND. */
  lemma RunGiven(s: seq<Byte>, max: nat)
    requires max >= 2
    ensures Feed(State(false, []), Escaped(s) + [FEND], max) == (State(false, []), Given(Cut(s, max)))
  {
    hide Feed, Given, Cut, Escaped;
    Body([], s, max);
    assert [] + s == s;
  }

  lemma FrameGiven(f: Sent, max: nat)
    requires GoodSent(f) && max >= 2
    ensures Feed(State(false, []), f.gap + Encode(f.port, f.cmd, f.body), max)
         == (State(false, []), Given(Cut(f.gap, max)) + Given(Cut([Head(f.port, f.cmd)] + f.body, max)))
  {
    hide Feed, Given, Escape, Escaped, Head, Cut;
    var h := Head(f.port, f.cmd);
    Plain(f.gap);
    RunGiven(f.gap, max);
    Plain([h]);
    EscapedAppend([h], f.body);
    RunGiven([h] + f.body, max);
    FeedAppend(State(false, []), f.gap + [FEND], [h] + Escaped(f.body) + [FEND], max);
    assert f.gap + Encode(f.port, f.cmd, f.body) == f.gap + [FEND] + ([h] + Escaped(f.body) + [FEND]);
  }

  /**
   A row of frames: the callback is given each gap and each frame as kiss_decode_frame reads it, or what is left of it if it
   does not fit the buffer.
   */
  lemma {:induction false} Frames(fs: seq<Sent>, max: nat)
    requires max >= 2 && forall f :: f in fs ==> GoodSent(f)
    ensures Feed(State(false, []), Transmitted(fs), max) == (State(false, []), AllGiven(fs, max))
    decreases |fs|
  {
    hide Feed, Given, GoodSent, Cut;
    if fs == [] {
      FeedNothing(State(false, []), max);
    } else {
      var f := fs[0];
      assert f in fs;
      FrameGiven(f, max);
      Frames(fs[1..], max);
      FeedAppend(State(false, []), f.gap + Encode(f.port, f.cmd, f.body), Transmitted(fs[1..]), max);
    }
  }

  /** Which frames reach the callback: nonempty data frames of port 0, and the one-byte return frame. */
  lemma GivenFrame(port: Byte, cmd: Byte, body: seq<Byte>)
    requires port < 16 && cmd < 16
    ensures Given([Head(port, cmd)] + body) ==
            if port == 0 && cmd == 0 && body != [] then [body]
            else if port == 15 && cmd == 15 && body == [] then [[RETURN]]
            else []
  {
    HeadParts(port, cmd);
    HeadReturn(port, cmd);
    var buf := [Head(port, cmd)] + body;
    assert buf[1..] == body;
    assert buf[0] == Head(port, cmd) && |buf| == 1 + |body|;
    if body == [] {
      assert buf == [Head(port, cmd)];
      assert buf == [RETURN] <==> buf[0] == RETURN;
    }
  }

  lemma HeadReturn(port: Byte, cmd: Byte)
    requires port < 16 && cmd < 16
    ensures Head(port, cmd) == RETURN <==> port == 15 && cmd == 15
  {
  }

  /** What is cut off is whole buffers, `q` of them, and what is left does not fill another. */
  lemma {:induction false} CutIs(s: seq<Byte>, max: nat) returns (q: nat)
    requires max > 2
    ensures 0 <= q * (max - 2) <= |s| < (q + 1) * (max - 2) && Cut(s, max) == s[q * (max - 2)..]
    decreases |s|
  {
    q := 0;
    if |s| >= max - 2 {
      var p := CutIs(s[max - 2..], max);
      q := p + 1;
      assert q * (max - 2) == p * (max - 2) + (max - 2) && (q + 1) * (max - 2) == (p + 1) * (max - 2) + (max - 2);
      assert s[max - 2..][p * (max - 2)..] == s[q * (max - 2)..];
    }
  }

  /** Between frames nothing is given exactly when the stray bytes do not look like a frame. */
  lemma GapGiven(gap: seq<Byte>)
    ensures Given(gap) == [] <==> gap == [] || (gap != [RETURN] && (gap[0] != 0 || |gap| < 2))
  {
    if gap != [] {
      var c := gap[0];
      assert c >> 4 > 0 || c & 0x0F != 0 <==> c != 0;
    }
  }
}
