/**
 The KISS decoder of src/kiss_codec.c, fed a byte at a time, on values.
 */
module KissCodec {
  import opened KissFraming

  datatype Phase = Idle | InHead | InBody

  /** The size of the decoder's payload buffer. */
  const SIZE: nat := 512

  /** `timer` says whether the receive timeout is pending. */
  datatype Kiss = Kiss(phase: Phase, head: Address, crc: Byte, escape: bool, data: seq<Byte>, timer: bool)

  datatype Address = Address(port: Byte, cmd: Byte)

  /** Addition of bytes, which wraps. */
  function Plus(a: Byte, b: Byte): Byte { a + b }

  lemma PlusLaws(a: Byte, b: Byte, c: Byte)
    ensures Plus(Plus(a, b), c) == Plus(a, Plus(b, c)) && Plus(a, b) == Plus(b, a) && Plus(a, 0) == a
  {
  }

  /** kiss_reset */
  function Reset(): Kiss { Kiss(Idle, Address(0, 0), 0, false, [], false) }

  /** The end of kiss_decode_byte, which runs unless a frame is complete. */
  function Tally(k: Kiss): Kiss {
    if k.data != [] then k.(crc := Plus(k.crc, k.data[|k.data| - 1])) else k
  }

  function Store(k: Kiss, c: Byte): Kiss {
    if |k.data| + 1 > SIZE then Reset() else k.(data := k.data + [c])
  }

  /** kiss_decode_byte: the decoder then, and whether a frame is complete. */
  function DecodeByte(k: Kiss, c: Byte): (Kiss, bool) {
    match k.phase
    case Idle =>
      (Tally(if c == FEND then Reset().(timer := true, phase := InHead) else k), false)
    case InHead =>
      (Tally(k.(head := Address((c >> 4) & 0x0F, c & 0x0F), phase := InBody)), false)
    case InBody =>
      if c == FEND then
        if k.head.cmd != 0 && !k.crc != 0 then (Tally(Reset()), false)
        else (k.(phase := Idle, timer := false), true)
      else if c == FESC then (Tally(k.(escape := true)), false)
      else if c == TFESC && k.escape then (Tally(Store(k, FESC).(escape := false)), false)
      else if c == TFEND && k.escape then (Tally(Store(k, FEND).(escape := false)), false)
      else (Tally(Store(k, c)), false)
  }

  /** `current` says whether the stream has a frame in hand; when it has not, the next call starts afresh. */
  datatype Ctx = Ctx(current: bool, kiss: Kiss)

  function Begin(x: Ctx): Kiss { if x.current then x.kiss else Reset() }

  /** One byte, and the payloads it completes. */
  function Feed1(x: Ctx, c: Byte): (Ctx, seq<seq<Byte>>) {
    var (k, done) := DecodeByte(Begin(x), c);
    (Ctx(!done, k), if done then [k.data] else [])
  }

  function Feed(x: Ctx, s: seq<Byte>): (Ctx, seq<seq<Byte>>)
    decreases |s|
  {
    if s == [] then (x, [])
    else
      var (x1, out1) := Feed1(x, s[0]);
      var (x2, out2) := Feed(x1, s[1..]);
      (x2, out1 + out2)
  }

  lemma {:induction false} FeedAppend(x: Ctx, a: seq<Byte>, b: seq<Byte>)
    ensures var (x1, out1) := Feed(x, a);
            var (x2, out2) := Feed(x1, b);
            Feed(x, a + b) == (x2, out1 + out2)
    decreases |a|
  {
    hide Feed1;
    if a == [] {
      assert a + b == b && [] + Feed(x, b).1 == Feed(x, b).1;
    } else {
      assert (a + b)[1..] == a[1..] + b;
      var (x1, out1) := Feed1(x, a[0]);
      FeedAppend(x1, a[1..], b);
      var (x2, out2) := Feed(x1, a[1..]);
      assert out1 + (out2 + Feed(x2, b).1) == (out1 + out2) + Feed(x2, b).1;
    }
  }

  lemma {:induction false} FeedTwo(x: Ctx, c: Byte, d: Byte)
    ensures Feed(x, [c]) == Feed1(x, c)
    ensures Feed(x, [c, d]) == var (x1, o1) := Feed1(x, c); var (x2, o2) := Feed1(x1, d); (x2, o1 + o2)
  {
    hide Feed1;
    var x1 := Feed1(x, c).0;
    assert [c][1..] == [] && [c, d][1..] == [d] && [d][1..] == [];
    assert Feed1(x, c).1 + [] == Feed1(x, c).1 && Feed1(x1, d).1 + [] == Feed1(x1, d).1;
    assert Feed(x1, [d]) == Feed1(x1, d);
  }

  // ----- the receive timeout -----

  /** The timeout is pending exactly in mid-frame. */
  predicate Timed(x: Ctx) {
    (x.kiss.timer <==> x.kiss.phase != Idle) && |x.kiss.data| <= SIZE && (!x.current ==> !x.kiss.timer)
  }

  datatype Event = Byte(c: Byte) | Timeout

  /** A byte arrives, or the timeout fires, which it does only when pending. */
  function Handle(x: Ctx, e: Event): (Ctx, seq<seq<Byte>>) {
    match e
    case Byte(c) => Feed1(x, c)
    case Timeout => (if x.kiss.timer then x.(kiss := Reset()) else x, [])
  }

  function HandleAll(x: Ctx, es: seq<Event>): (Ctx, seq<seq<Byte>>)
    decreases |es|
  {
    if es == [] then (x, [])
    else
      var (x1, out1) := Handle(x, es[0]);
      var (x2, out2) := HandleAll(x1, es[1..]);
      (x2, out1 + out2)
  }

  /** After any run of bytes and timeouts the timer is pending iff a frame has begun and not ended. */
  lemma {:induction false} AlwaysTimed(x: Ctx, es: seq<Event>)
    requires Timed(x)
    ensures Timed(HandleAll(x, es).0)
    ensures forall i :: 0 <= i < |HandleAll(x, es).1| ==> |HandleAll(x, es).1[i]| <= SIZE
    decreases |es|
  {
    hide Plus;
    if es != [] {
      AlwaysTimed(Handle(x, es[0]).0, es[1..]);
    }
  }

  // ----- frames -----

  /** Sum of bytes, mod 256. */
  function Sum(s: seq<Byte>): Byte {
    if s == [] then 0 else Plus(s[0], Sum(s[1..]))
  }

  lemma {:induction false} SumAppend(a: seq<Byte>, b: seq<Byte>)
    ensures Sum(a + b) == Plus(Sum(a), Sum(b))
    decreases |a|
  {
    hide Plus;
    PlusLaws(Sum(b), 0, 0);
    PlusLaws(0, Sum(b), 0);
    if a == [] {
      assert a + b == b;
    } else {
      assert (a + b)[1..] == a[1..] + b;
      SumAppend(a[1..], b);
      PlusLaws(a[0], Sum(a[1..]), Sum(b));
    }
  }

  /** calc_crc of src/tnc_config.c */
  function Crc(payload: seq<Byte>): Byte { !Sum(payload) }

  predicate NeedsEscape(c: Byte) { c == FEND || c == FESC }

  /** The byte that the decoder counts once more when `c` comes escaped after `before`. */
  function Again(before: seq<Byte>, c: Byte): Byte {
    if before != [] && NeedsEscape(c) then before[|before| - 1] else 0
  }

  /** The sum of the bytes that stand right before an escaped byte. */
  function Doubled(before: seq<Byte>, s: seq<Byte>): Byte
    decreases |s|
  {
    if s == [] then 0 else Plus(Again(before, s[0]), Doubled(before + [s[0]], s[1..]))
  }

  /** What the decoder has counted after `s` behind `before`. */
  function Counted(before: seq<Byte>, s: seq<Byte>): Byte { Plus(Sum(s), Doubled(before, s)) }

  /** The decoder inside a body, with `data` decoded so far and no escape open. */
  predicate InFrame(x: Ctx, head: Address, data: seq<Byte>, crc: Byte) {
    x == Ctx(true, Kiss(InBody, head, crc, false, data, true))
  }

  lemma BodyByte(x: Ctx, head: Address, data: seq<Byte>, crc: Byte, c: Byte)
    requires InFrame(x, head, data, crc) && |data| < SIZE
    ensures var (x', out) := Feed(x, Escape(c));
            out == [] && InFrame(x', head, data + [c], Plus(Plus(crc, Again(data, c)), c))
  {
    hide Plus, DecodeByte;
    PlusLaws(crc, 0, 0);
    if NeedsEscape(c) {
      EscapedByte(x, head, data, crc, c);
    } else {
      FeedTwo(x, c, 0);
      PlainByte(x, head, data, crc, c);
    }
  }

  lemma PlainByte(x: Ctx, head: Address, data: seq<Byte>, crc: Byte, c: Byte)
    requires InFrame(x, head, data, crc) && |data| < SIZE && !NeedsEscape(c)
    ensures Feed1(x, c) == (Ctx(true, Kiss(InBody, head, Plus(crc, c), false, data + [c], true)), [])
  {
    hide Plus;
  }

  lemma EscapedByte(x: Ctx, head: Address, data: seq<Byte>, crc: Byte, c: Byte)
    requires InFrame(x, head, data, crc) && |data| < SIZE && NeedsEscape(c)
    ensures var (x', out) := Feed(x, Escape(c));
            out == [] && InFrame(x', head, data + [c], Plus(Plus(crc, Again(data, c)), c))
  {
    hide Plus, Feed, Feed1;
    var crc1 := Plus(crc, Again(data, c));
    var x1 := Ctx(true, Kiss(InBody, head, crc1, true, data, true));
    PlusLaws(crc, 0, 0);
    EscapeByte(x, head, data, crc);
    UnescapeByte(x1, head, data, crc1, c);
    FeedTwo(x, FESC, Escape(c)[1]);
    assert Escape(c) == [FESC, Escape(c)[1]];
  }

  /** After an escape byte the last byte decoded, if there is one, is counted once more. */
  lemma EscapeByte(x: Ctx, head: Address, data: seq<Byte>, crc: Byte)
    requires InFrame(x, head, data, crc)
    ensures var crc1 := if data == [] then crc else Plus(crc, data[|data| - 1]);
            Feed1(x, FESC) == (Ctx(true, Kiss(InBody, head, crc1, true, data, true)), [])
  {
    hide Plus;
  }

  lemma UnescapeByte(x: Ctx, head: Address, data: seq<Byte>, crc: Byte, c: Byte)
    requires x == Ctx(true, Kiss(InBody, head, crc, true, data, true)) && |data| < SIZE && NeedsEscape(c)
    ensures Feed1(x, Escape(c)[1]) == (Ctx(true, Kiss(InBody, head, Plus(crc, c), false, data + [c], true)), [])
  {
    hide Plus;
  }

  lemma CountStep(before: seq<Byte>, s: seq<Byte>, crc: Byte)
    requires s != []
    ensures Plus(Plus(Plus(crc, Again(before, s[0])), s[0]), Counted(before + [s[0]], s[1..]))
         == Plus(crc, Counted(before, s))
  {
    hide Again, Plus;
    Shuffle(crc, Again(before, s[0]), s[0], Sum(s[1..]), Doubled(before + [s[0]], s[1..]));
  }

  lemma Shuffle(k: Byte, a: Byte, c: Byte, t: Byte, d: Byte)
    ensures Plus(Plus(Plus(k, a), c), Plus(t, d)) == Plus(k, Plus(Plus(c, t), Plus(a, d)))
  {
    hide Plus;
    var ct := Plus(c, t);
    PlusLaws(Plus(k, a), c, Plus(t, d));
    PlusLaws(k, a, Plus(c, Plus(t, d)));
    PlusLaws(c, t, d);
    PlusLaws(a, ct, d);
    PlusLaws(ct, a, d);
  }

  lemma {:induction false} Body(x: Ctx, head: Address, data: seq<Byte>, crc: Byte, s: seq<Byte>)
    requires InFrame(x, head, data, crc) && |data| + |s| <= SIZE
    ensures var (x', out) := Feed(x, Escaped(s));
            out == [] && InFrame(x', head, data + s, Plus(crc, Counted(data, s)))
    decreases |s|
  {
    hide InFrame, Feed1, Plus, Again, Counted, Escape;
    if s == [] {
      assert data + s == data;
      CountNothing(data, crc);
    } else {
      BodyByte(x, head, data, crc, s[0]);
      FeedAppend(x, Escape(s[0]), Escaped(s[1..]));
      var x1 := Feed(x, Escape(s[0])).0;
      Body(x1, head, data + [s[0]], Plus(Plus(crc, Again(data, s[0])), s[0]), s[1..]);
      CountStep(data, s, crc);
      assert data + [s[0]] + s[1..] == data + s;
    }
  }

  lemma CountNothing(data: seq<Byte>, crc: Byte)
    ensures Plus(crc, Counted(data, [])) == crc
  {
  }

  /** Between frames: nothing in hand, or waiting for a FEND. */
  predicate Between(x: Ctx) { Begin(x).phase == Idle && Begin(x).data == [] }

  lemma {:induction false} Garbage(x: Ctx, s: seq<Byte>)
    requires Between(x) && FEND !in s
    ensures Between(Feed(x, s).0) && Feed(x, s).1 == []
    decreases |s|
  {
    hide Plus;
    if s != [] {
      Garbage(Feed1(x, s[0]).0, s[1..]);
    }
  }

  /** A frame is delivered unless it is a control frame whose count is off. */
  predicate Accepted(cmd: Byte, body: seq<Byte>) {
    cmd == 0 || Counted([], body) == 0xFF
  }

  lemma Opening(x: Ctx, port: Byte, cmd: Byte)
    requires Between(x) && port < 16 && cmd < 16
    ensures var (x', out) := Feed(x, [FEND, Head(port, cmd)]);
            out == [] && InFrame(x', Address(port, cmd), [], 0)
  {
    hide Plus;
    HeadParts(port, cmd);
    FeedTwo(x, FEND, Head(port, cmd));
  }

  lemma Closing(x: Ctx, head: Address, body: seq<Byte>, crc: Byte)
    requires InFrame(x, head, body, crc)
    ensures var (x', out) := Feed(x, [FEND]);
            Between(x') && out == if head.cmd == 0 || crc == 0xFF then [body] else []
  {
    FeedTwo(x, FEND, 0);
  }

  /** One frame: its body is delivered iff it is accepted, and the decoder is then between frames. */
  lemma Frame(x: Ctx, port: Byte, cmd: Byte, body: seq<Byte>)
    requires Between(x) && port < 16 && cmd < 16 && |body| <= SIZE
    ensures var (x', out) := Feed(x, Encode(port, cmd, body));
            Between(x') && out == if Accepted(cmd, body) then [body] else []
  {
    hide InFrame, Between, Feed, Counted, Plus;
    Opening(x, port, cmd);
    var open := [FEND, Head(port, cmd)];
    var x2 := Feed(x, open).0;
    Body(x2, Address(port, cmd), [], 0, body);
    assert [] + body == body;
    PlusLaws(0, Counted([], body), 0);
    PlusLaws(Counted([], body), 0, 0);
    var x3 := Feed(x2, Escaped(body)).0;
    Closing(x3, Address(port, cmd), body, Counted([], body));
    FeedAppend(x, open, Escaped(body));
    FeedAppend(x, open + Escaped(body), [FEND]);
  }

  // ----- streams of frames -----

  /** A frame and the garbage before it. */
  datatype Sent = Sent(gap: seq<Byte>, port: Byte, cmd: Byte, body: seq<Byte>)

  predicate GoodSent(f: Sent) { FEND !in f.gap && f.port < 16 && f.cmd < 16 && |f.body| <= SIZE }

  function Transmitted(fs: seq<Sent>): seq<Byte> {
    if fs == [] then [] else fs[0].gap + Encode(fs[0].port, fs[0].cmd, fs[0].body) + Transmitted(fs[1..])
  }

  function AcceptedBodies(fs: seq<Sent>): seq<seq<Byte>> {
    if fs == [] then []
    else (if Accepted(fs[0].cmd, fs[0].body) then [fs[0].body] else []) + AcceptedBodies(fs[1..])
  }

  lemma TransmittedParts(fs: seq<Sent>, tail: seq<Byte>)
    requires fs != []
    ensures Transmitted(fs) + tail == fs[0].gap + (Encode(fs[0].port, fs[0].cmd, fs[0].body) + (Transmitted(fs[1..]) + tail))
  {
    hide Encode;
  }

  /** Any row of frames with garbage between them: exactly the accepted bodies are delivered, in order. */
  lemma {:induction false} Frames(x: Ctx, fs: seq<Sent>, tail: seq<Byte>)
    requires Between(x) && (forall f :: f in fs ==> GoodSent(f)) && FEND !in tail
    ensures var (x', out) := Feed(x, Transmitted(fs) + tail);
            Between(x') && out == AcceptedBodies(fs)
    decreases |fs|
  {
    hide Between, Feed, Accepted, Transmitted, Encode;
    if fs == [] {
      NothingSent(tail);
      Garbage(x, tail);
    } else {
      var f, rest := fs[0], Transmitted(fs[1..]) + tail;
      assert f in fs;
      var frame := Encode(f.port, f.cmd, f.body);
      Garbage(x, f.gap);
      var x1 := Feed(x, f.gap).0;
      Frame(x1, f.port, f.cmd, f.body);
      var x2 := Feed(x1, frame).0;
      Frames(x2, fs[1..], tail);
      FeedAppend(x1, frame, rest);
      FeedAppend(x, f.gap, frame + rest);
      TransmittedParts(fs, tail);
      var out1, out2 := Feed(x1, frame).1, Feed(x2, rest).1;
      assert [] + (out1 + out2) == out1 + out2;
    }
  }

  lemma NothingSent(tail: seq<Byte>)
    ensures Transmitted([]) + tail == tail && AcceptedBodies([]) == []
  {
  }

  /** Data frames are all delivered. */
  lemma {:induction false} DataBodies(fs: seq<Sent>)
    requires forall f :: f in fs ==> f.cmd == 0
    ensures |AcceptedBodies(fs)| == |fs| && (forall i :: 0 <= i < |fs| ==> AcceptedBodies(fs)[i] == fs[i].body)
    decreases |fs|
  {
    if fs != [] {
      DataBodies(fs[1..]);
    }
  }

  /**
   A control frame that carries its payload and the check byte of the sender is accepted iff the
   bytes right before the escaped ones add up to zero: the decoder counts each of those twice.
   */
  lemma ControlFrame(cmd: Byte, payload: seq<Byte>)
    requires cmd != 0
    ensures var body := payload + [Crc(payload)]; Accepted(cmd, body) <==> Doubled([], body) == 0
  {
    var body := payload + [Crc(payload)];
    SumAppend(payload, [Crc(payload)]);
    assert [Crc(payload)][1..] == [];
    var s, d := Sum(payload), Doubled([], body);
    assert Sum([!s]) == !s;
    ChecksOut(s, d);
  }

  lemma ChecksOut(s: Byte, d: Byte)
    ensures Plus(Plus(s, !s), d) == 0xFF <==> d == 0
  {
    assert s + !s == 0xFF;
  }

  /** In particular when nothing in it needs an escape. */
  lemma {:induction false} NothingDoubled(before: seq<Byte>, s: seq<Byte>)
    requires forall c :: c in s ==> !NeedsEscape(c)
    ensures Doubled(before, s) == 0
    decreases |s|
  {
    if s != [] {
      NothingDoubled(before + [s[0]], s[1..]);
    }
  }

  /** A control frame that the sender's own check byte does not save: payload 01 C0. */
  lemma ControlFrameLost(cmd: Byte)
    requires cmd != 0
    ensures !Accepted(cmd, [1, FEND] + [Crc([1, FEND])])
  {
    ControlFrame(cmd, [1, FEND]);
    var body := [1, FEND] + [Crc([1, FEND])];
    assert body == [1, FEND, 0x3E] by {
      assert [1, FEND][1..] == [FEND] && [FEND][1..] == [];
      assert Sum([FEND]) == FEND;
    }
    var one, two: seq<Byte> := [1], [1, FEND];
    assert [0x3E][1..] == [] && [FEND, 0x3E][1..] == [0x3E] && body[1..] == [FEND, 0x3E];
    assert [] + [body[0]] == one && one + [FEND] == two;
    assert Doubled(two, [0x3E]) == Plus(Again(two, 0x3E), Doubled(two + [0x3E], []));
    assert Doubled(one, [FEND, 0x3E]) == Plus(Again(one, FEND), Doubled(two, [0x3E]));
    assert Doubled([], body) == Plus(Again([], body[0]), Doubled(one, body[1..]));
  }

  // ----- where the decoder writes behind its buffer -----

  /** The byte would be stored, and the buffer is full: the length is tested only after the store. */
  predicate Outside(x: Ctx, c: Byte) {
    Begin(x).phase == InBody && c != FEND && c != FESC && |Begin(x).data| >= SIZE
  }

  /** Some byte of the run is stored behind the buffer; what follows the first such store is not the code's any more. */
  predicate Spills(x: Ctx, s: seq<Byte>)
    decreases |s|
  {
    s != [] && (Outside(x, s[0]) || Spills(Feed1(x, s[0]).0, s[1..]))
  }

  lemma {:induction false} SpillsAppend(x: Ctx, a: seq<Byte>, b: seq<Byte>)
    ensures Spills(x, a + b) <==> Spills(x, a) || Spills(Feed(x, a).0, b)
    decreases |a|
  {
    hide Feed1, Outside;
    if a == [] {
      assert a + b == b;
    } else {
      assert (a + b)[1..] == a[1..] + b;
      SpillsAppend(Feed1(x, a[0]).0, a[1..], b);
    }
  }

  lemma {:induction false} SpillsTwo(x: Ctx, c: Byte, d: Byte)
    ensures Spills(x, [c]) <==> Outside(x, c)
    ensures Spills(x, [c, d]) <==> Outside(x, c) || Outside(Feed1(x, c).0, d)
  {
    hide Feed1, Outside;
    assert [c][1..] == [] && [c, d][1..] == [d] && [d][1..] == [];
    assert Spills(Feed1(x, c).0, [d]) <==> Outside(Feed1(x, c).0, d);
  }

  /** One byte of a body spills exactly if the buffer is full. */
  lemma ByteSpills(x: Ctx, head: Address, data: seq<Byte>, crc: Byte, c: Byte)
    requires InFrame(x, head, data, crc)
    ensures Spills(x, Escape(c)) <==> |data| >= SIZE
  {
    hide Plus;
    SpillsTwo(x, Escape(c)[0], if |Escape(c)| > 1 then Escape(c)[1] else 0);
    if NeedsEscape(c) {
      EscapeByte(x, head, data, crc);
    }
  }

  lemma {:induction false} BodySpills(x: Ctx, head: Address, data: seq<Byte>, crc: Byte, s: seq<Byte>)
    requires InFrame(x, head, data, crc) && |data| <= SIZE
    ensures Spills(x, Escaped(s)) <==> |data| + |s| > SIZE
    decreases |s|
  {
    hide InFrame, Feed1, Plus, Again, Escape, Outside;
    if s != [] {
      ByteSpills(x, head, data, crc, s[0]);
      SpillsAppend(x, Escape(s[0]), Escaped(s[1..]));
      if |data| < SIZE {
        BodyByte(x, head, data, crc, s[0]);
        BodySpills(Feed(x, Escape(s[0])).0, head, data + [s[0]], Plus(Plus(crc, Again(data, s[0])), s[0]), s[1..]);
      }
    }
  }

  /** The encoding of a body makes the decoder store behind its buffer exactly if the body is longer than 512 bytes. */
  lemma FrameSpills(x: Ctx, port: Byte, cmd: Byte, body: seq<Byte>)
    requires Between(x) && port < 16 && cmd < 16
    ensures Spills(x, Encode(port, cmd, body)) <==> |body| > SIZE
  {
    hide InFrame, Feed, Counted, Plus, Outside, Spills;
    var open := [FEND, Head(port, cmd)];
    Opening(x, port, cmd);
    OpeningFits(x, port, cmd);
    var x2 := Feed(x, open).0;
    BodySpills(x2, Address(port, cmd), [], 0, body);
    SpillsAppend(x, open, Escaped(body));
    SpillsAppend(x, open + Escaped(body), [FEND]);
    SpillsTwo(Feed(x, open + Escaped(body)).0, FEND, 0);
    FendFits(Feed(x, open + Escaped(body)).0);
  }

  lemma FendFits(x: Ctx)
    ensures !Outside(x, FEND)
  {
  }

  lemma OpeningFits(x: Ctx, port: Byte, cmd: Byte)
    requires Between(x)
    ensures !Spills(x, [FEND, Head(port, cmd)])
  {
    hide Plus;
    SpillsTwo(x, FEND, Head(port, cmd));
  }

  lemma {:induction false} GarbageFits(x: Ctx, s: seq<Byte>)
    requires Between(x) && FEND !in s
    ensures !Spills(x, s)
    decreases |s|
  {
    hide Plus;
    if s != [] {
      GarbageFits(Feed1(x, s[0]).0, s[1..]);
    }
  }

  /** A row of frames, of bodies of any length, with garbage between them: the decoder writes behind its buffer iff one is too long. */
  lemma {:induction false} RowSpills(x: Ctx, fs: seq<Sent>, tail: seq<Byte>)
    requires Between(x) && FEND !in tail
    requires forall i :: 0 <= i < |fs| ==> FEND !in fs[i].gap && fs[i].port < 16 && fs[i].cmd < 16
    ensures Spills(x, Transmitted(fs) + tail) <==> exists i :: 0 <= i < |fs| && |fs[i].body| > SIZE
    decreases |fs|
  {
    hide Between, Feed, Spills, Transmitted, Encode, Accepted;
    if fs == [] {
      NothingSent(tail);
      GarbageFits(x, tail);
    } else {
      var f, rest := fs[0], Transmitted(fs[1..]) + tail;
      var frame := Encode(f.port, f.cmd, f.body);
      TransmittedParts(fs, tail);
      Garbage(x, f.gap);
      GarbageFits(x, f.gap);
      var x1 := Feed(x, f.gap).0;
      SpillsAppend(x, f.gap, frame + rest);
      SpillsAppend(x1, frame, rest);
      FrameSpills(x1, f.port, f.cmd, f.body);
      if |f.body| <= SIZE {
        Frame(x1, f.port, f.cmd, f.body);
        RowSpills(Feed(x1, frame).0, fs[1..], tail);
        TailLong(fs);
      }
    }
  }

  lemma TailLong(fs: seq<Sent>)
    requires fs != [] && |fs[0].body| <= SIZE
    ensures (exists i :: 0 <= i < |fs| && |fs[i].body| > SIZE) <==> exists i :: 0 <= i < |fs[1..]| && |fs[1..][i].body| > SIZE
  {
    if i :| 0 <= i < |fs| && |fs[i].body| > SIZE {
      assert fs[1..][i - 1] == fs[i];
    }
    if i :| 0 <= i < |fs[1..]| && |fs[1..][i].body| > SIZE {
      assert fs[i + 1] == fs[1..][i];
    }
  }

  /** The shortest frame that does it: a data frame of 513 zeros, on a decoder that has just been reset. */
  lemma LongFrameSpills(body: seq<Byte>)
    requires |body| == SIZE + 1 && forall i :: 0 <= i < |body| ==> body[i] == 0
    ensures Spills(Ctx(false, Reset()), Encode(0, 0, body))
  {
    hide Encode, Spills;
    FrameSpills(Ctx(false, Reset()), 0, 0, body);
  }
}
