/**
 KISS frames as src/tnc_config.c writes and reads them: a payload between two FEND bytes, after a
 byte that holds port and command, with FEND and FESC escaped inside the payload.
 */
module KissFraming {

  type Byte = bv8

  const FEND: Byte := 0xC0
  const FESC: Byte := 0xDB
  const TFEND: Byte := 0xDC
  const TFESC: Byte := 0xDD

  /** The bytes of a frame buffer; `append` keeps three of them free. */
  const FRAME_SIZE: nat := 5120

  function Escape(c: Byte): (e: seq<Byte>)
    ensures 1 <= |e| <= 2
  {
    if c == FEND then [FESC, TFEND] else if c == FESC then [FESC, TFESC] else [c]
  }

  function Escaped(payload: seq<Byte>): seq<Byte> {
    if payload == [] then [] else Escape(payload[0]) + Escaped(payload[1..])
  }

  function Head(port: Byte, cmd: Byte): Byte { (port << 4) | cmd }

  /** A whole frame. */
  function Encode(port: Byte, cmd: Byte, payload: seq<Byte>): seq<Byte> {
    [FEND, Head(port, cmd)] + Escaped(payload) + [FEND]
  }

  lemma {:induction false} EscapedAppend(a: seq<Byte>, b: seq<Byte>)
    ensures Escaped(a + b) == Escaped(a) + Escaped(b)
    decreases |a|
  {
    if a == [] {
      assert a + b == b;
    } else {
      assert (a + b)[1..] == a[1..] + b;
      EscapedAppend(a[1..], b);
    }
  }

  lemma EscapedOne(c: Byte)
    ensures Escaped([c]) == Escape(c)
  {
    assert [c][1..] == [];
  }

  /** An escaped payload holds no FEND, and is no longer than twice the payload. */
  lemma {:induction false} EscapedClean(payload: seq<Byte>)
    ensures FEND !in Escaped(payload)
    ensures |payload| <= |Escaped(payload)| <= 2 * |payload|
  {
    if payload != [] {
      EscapedClean(payload[1..]);
    }
  }

  /** The bytes on the wire. */
  lemma EscapeIs(c: Byte)
    ensures Escape(c) == if c == 0xC0 then [0xDB, 0xDC] else if c == 0xDB then [0xDB, 0xDD] else [c]
  {
  }

  /** A frame of port 5, command 6, with a payload that holds both special bytes. */
  lemma FrameBytes()
    ensures Encode(5, 6, [0xC0, 0x41, 0xDB]) == [0xC0, 0x56, 0xDB, 0xDC, 0x41, 0xDB, 0xDD, 0xC0]
  {
    EscapedOne(0xDB);
    assert [0xC0, 0x41, 0xDB as Byte][1..] == [0x41, 0xDB] && [0x41, 0xDB as Byte][1..] == [0xDB];
  }

  lemma HeadParts(port: Byte, cmd: Byte)
    requires port < 16 && cmd < 16
    ensures Head(port, cmd) & 0x0F == cmd && (Head(port, cmd) >> 4) & 0x0F == port && Head(port, cmd) >> 4 == port
  {
  }

  // ----- the encoder -----

  /** How many bytes of a payload find room behind `o` bytes of a frame. */
  function Fitting(payload: seq<Byte>, o: nat): (n: nat)
    ensures n <= |payload|
  {
    if payload == [] || o >= FRAME_SIZE - 3 then 0 else 1 + Fitting(payload[1..], o + |Escape(payload[0])|)
  }

  /** A payload is written whole iff all of it but its last byte leaves three bytes of the frame free. */
  lemma {:induction false} FittingAll(payload: seq<Byte>, o: nat)
    ensures Fitting(payload, o) == |payload| <==>
            payload == [] || o + |Escaped(payload[..|payload| - 1])| < FRAME_SIZE - 3
    decreases |payload|
  {
    if |payload| > 1 {
      FittingAll(payload[1..], o + |Escape(payload[0])|);
      var front, rest := payload[..|payload| - 1], payload[1..];
      assert front[1..] == rest[..|rest| - 1];
    } else if |payload| == 1 {
      assert payload[..0] == [];
    }
  }

  lemma AppendStep(payload: seq<Byte>, i: nat, o: nat)
    requires i < |payload| && o < FRAME_SIZE - 3
    ensures Escaped(payload[..i + 1]) == Escaped(payload[..i]) + Escape(payload[i])
    ensures Fitting(payload[i..], o) == 1 + Fitting(payload[i + 1..], o + |Escape(payload[i])|)
  {
    EscapedAppend(payload[..i], [payload[i]]);
    EscapedOne(payload[i]);
    assert payload[..i + 1] == payload[..i] + [payload[i]] && payload[i..][1..] == payload[i + 1..];
  }

  lemma EscapedNone()
    ensures Escaped([]) == []
    ensures forall payload: seq<Byte>, o: nat :: o >= FRAME_SIZE - 3 || payload == [] ==> Fitting(payload, o) == 0
  {
  }

  class KissFrame {
    var port: Byte
    var cmd: Byte
    const data: array<Byte>
    var dataLen: nat

    ghost predicate Valid()
      reads this
    {
      data.Length == FRAME_SIZE && dataLen <= FRAME_SIZE
    }

    constructor ()
      ensures Valid() && fresh(data)
    {
      data := new Byte[FRAME_SIZE];
      dataLen := 0;
    }

    /** kiss_encode_begin */
    method EncodeBegin(port: Byte, cmd: Byte)
      requires Valid()
      modifies this, data
      ensures Valid() && this.port == port && this.cmd == cmd
      ensures data[..dataLen] == [FEND, Head(port, cmd)]
    {
      this.port, this.cmd := port, cmd;
      data[0] := FEND;
      data[1] := (port << 4) | cmd;
      dataLen := 2;
    }

    /** One byte of kiss_encode_append, behind `o` bytes of the frame. */
    method PutEscaped(o: nat, c: Byte) returns (o': nat)
      requires data.Length == FRAME_SIZE && o < FRAME_SIZE - 3
      modifies data
      ensures o' == o + |Escape(c)| && data[..o'] == old(data[..o]) + Escape(c)
    {
      if c == FEND {
        data[o], data[o + 1] := FESC, TFEND;
        o' := o + 2;
      } else if c == FESC {
        data[o], data[o + 1] := FESC, TFESC;
        o' := o + 2;
      } else {
        data[o] := c;
        o' := o + 1;
      }
    }

    /** kiss_encode_append */
    method EncodeAppend(payload: seq<Byte>)
      requires Valid()
      modifies this`dataLen, data
      ensures Valid() && (dataLen < FRAME_SIZE || dataLen == old(dataLen))
      ensures data[..dataLen] == old(data[..dataLen]) + Escaped(payload[..Fitting(payload, old(dataLen))])
    {
      hide Escaped, Fitting, Escape;
      EscapedNone();
      var i, o := 0, dataLen;
      while i < |payload| && o < data.Length - 3
        invariant i <= |payload| && old(dataLen) <= o && (o < FRAME_SIZE || o == old(dataLen))
        invariant data[..o] == old(data[..dataLen]) + Escaped(payload[..i])
        invariant i + Fitting(payload[i..], o) == Fitting(payload, old(dataLen))
      {
        AppendStep(payload, i, o);
        o := PutEscaped(o, payload[i]);
        i := i + 1;
      }
      dataLen := o;
    }

    /** kiss_encode_end */
    method EncodeEnd()
      requires Valid() && dataLen < FRAME_SIZE
      modifies this`dataLen, data
      ensures Valid() && data[..dataLen] == old(data[..dataLen]) + [FEND]
    {
      data[dataLen] := FEND;
      dataLen := dataLen + 1;
    }

    /** kiss_encode_ex: the frame of as much of the payload as finds room. */
    method EncodeEx(port: Byte, cmd: Byte, payload: seq<Byte>) returns (len: nat)
      requires Valid()
      modifies this, data
      ensures Valid() && len == dataLen
      ensures data[..dataLen] == Encode(port, cmd, payload[..Fitting(payload, 2)])
    {
      EncodeBegin(port, cmd);
      EncodeAppend(payload);
      EncodeEnd();
      len := dataLen;
    }

    /** kiss_decode_ex; `out` has room for whatever a frame can hold. */
    method DecodeEx(out: array<Byte>) returns (len: int)
      requires Valid() && out != data && out.Length >= FRAME_SIZE
      modifies this`port, this`cmd, out
      ensures match Decode(data[..dataLen])
              case None => len == -1
              case Some(p, c, payload) =>
                len == |payload| <= out.Length && out[..len] == payload && port == p && cmd == c
    {
      if dataLen < 3 || data[0] != FEND {
        return -1;
      }
      port, cmd := (data[1] >> 4) & 0x0F, data[1] & 0x0F;
      len := Unescape(out);
    }

    static method PutAt(out: array<Byte>, at: nat, x: Byte)
      requires at < out.Length
      modifies out
      ensures out[..at + 1] == old(out[..at]) + [x]
    {
      out[at] := x;
    }

    /** The loop of kiss_decode_ex. */
    method Unescape(out: array<Byte>) returns (len: nat)
      requires Valid() && out != data && out.Length >= FRAME_SIZE && dataLen >= 2
      modifies out
      ensures len <= out.Length && out[..len] == Unescaped(data[2..dataLen], false)
    {
      hide Unescaped, Leads;
      var i, oLen, escaped := 2, 0, false;
      ghost var body := data[..dataLen];
      ghost var want := Unescaped(body[2..], false);
      WholeLeft(want);
      while i < dataLen
        modifies out
        invariant 2 <= i <= dataLen && oLen <= i
        invariant Leads(out[..oLen], Unescaped(body[i..], escaped), want)
      {
        var c := data[i];
        UnescapedStep(body, i, escaped);
        if c == FEND {
          break;
        } else if c == FESC {
          escaped := true;
        } else {
          var x := if c == TFESC && escaped then FESC else if c == TFEND && escaped then FEND else c;
          OneLess(out[..oLen], x, Unescaped(body[i + 1..], false), want);
          PutAt(out, oLen, x);
          oLen := oLen + 1;
          escaped := false;
        }
        i := i + 1;
      }
      UnescapedEnd(body[i..], escaped);
      NoneLeft(out[..oLen], Unescaped(body[i..], escaped), want);
      len := oLen;
    }
  }

  /** What is written and what is still to come make up the whole. */
  predicate Leads(done: seq<Byte>, rest: seq<Byte>, whole: seq<Byte>) { done + rest == whole }

  lemma WholeLeft(whole: seq<Byte>)
    ensures Leads([], whole, whole)
  {
  }

  lemma OneLess(done: seq<Byte>, x: Byte, rest: seq<Byte>, whole: seq<Byte>)
    ensures Leads(done, [x] + rest, whole) <==> Leads(done + [x], rest, whole)
  {
    assert done + ([x] + rest) == (done + [x]) + rest;
  }

  lemma NoneLeft(done: seq<Byte>, rest: seq<Byte>, whole: seq<Byte>)
    ensures rest == [] && Leads(done, rest, whole) ==> done == whole
  {
  }

  // ----- the decoder -----

  datatype Decoded = None | Some(port: Byte, cmd: Byte, payload: seq<Byte>)

  /** The payload bytes up to the next FEND or the end. */
  function Unescaped(s: seq<Byte>, escaped: bool): seq<Byte> {
    if s == [] || s[0] == FEND then []
    else if s[0] == FESC then Unescaped(s[1..], true)
    else if s[0] == TFESC && escaped then [FESC] + Unescaped(s[1..], false)
    else if s[0] == TFEND && escaped then [FEND] + Unescaped(s[1..], false)
    else [s[0]] + Unescaped(s[1..], false)
  }

  lemma UnescapedStep(s: seq<Byte>, i: nat, escaped: bool)
    requires i < |s|
    ensures Unescaped(s[i..], escaped) ==
            var c := s[i];
            if c == FEND then []
            else if c == FESC then Unescaped(s[i + 1..], true)
            else [if c == TFESC && escaped then FESC else if c == TFEND && escaped then FEND else c]
                 + Unescaped(s[i + 1..], false)
  {
    assert s[i..][1..] == s[i + 1..];
  }

  lemma UnescapedEnd(s: seq<Byte>, escaped: bool)
    requires s == [] || s[0] == FEND
    ensures Unescaped(s, escaped) == []
  {
  }

  function Decode(frame: seq<Byte>): Decoded {
    if |frame| < 3 || frame[0] != FEND then None
    else Some((frame[1] >> 4) & 0x0F, frame[1] & 0x0F, Unescaped(frame[2..], false))
  }

  /** A frame is refused iff it is shorter than three bytes or does not begin with C0; port and command are the halves of its second byte. */
  lemma DecodeRefuses(frame: seq<Byte>)
    ensures Decode(frame).None? <==> |frame| < 3 || frame[0] != 0xC0
    ensures Decode(frame).Some? ==> frame[1] as int == Decode(frame).port as int * 16 + Decode(frame).cmd as int
  {
    if |frame| >= 3 {
      Halves(frame[1]);
    }
  }

  lemma Halves(b: Byte)
    ensures ((b >> 4) & 0x0F) as int * 16 + (b & 0x0F) as int == b as int
  {
    assert b == ((b >> 4) & 0x0F) * 16 + (b & 0x0F);
  }

  lemma UnescapeOne(c: Byte, s: seq<Byte>)
    ensures Unescaped(Escape(c) + s, false) == [c] + Unescaped(s, false)
  {
    var e := Escape(c);
    assert (e + s)[0] == e[0] && (e + s)[1..] == e[1..] + s;
    if |e| == 2 {
      assert (e[1..] + s)[0] == e[1] && (e[1..] + s)[1..] == s;
    } else {
      assert e[1..] + s == s;
    }
  }

  lemma {:induction false} UnescapedEscaped(payload: seq<Byte>, after: seq<Byte>)
    ensures Unescaped(Escaped(payload) + [FEND] + after, false) == payload
    decreases |payload|
  {
    hide Unescaped, Escape;
    if payload == [] {
      assert Escaped(payload) + [FEND] + after == [FEND] + after;
      UnescapedEnd([FEND] + after, false);
    } else {
      var s := Escaped(payload[1..]) + [FEND] + after;
      UnescapedEscaped(payload[1..], after);
      UnescapeOne(payload[0], s);
      assert Escaped(payload) + [FEND] + after == Escape(payload[0]) + s;
    }
  }

  /** Decoding a frame gives back its port, its command and its payload, whatever follows it. */
  lemma DecodeEncode(port: Byte, cmd: Byte, payload: seq<Byte>, after: seq<Byte>)
    requires port < 16 && cmd < 16
    ensures Decode(Encode(port, cmd, payload) + after) == Some(port, cmd, payload)
  {
    var frame := Encode(port, cmd, payload) + after;
    HeadParts(port, cmd);
    UnescapedEscaped(payload, after);
    assert frame[2..] == Escaped(payload) + [FEND] + after;
  }
}
