/**
 The AX.25 frames of src/ax25.c: how the decoder reads addresses, and that it undoes the address
 encoding of section 3.12 of the AX.25 v2.2 specification.
 */
module Ax25 {
  import opened Options

  type Byte = bv8

  const CTRL_UI: Byte := 0x03
  const PID_NOLAYER3: Byte := 0xF0
  const MAX_RPT: nat := 8

  /** The most bytes that the decoder looks at: ten addresses, control and PID. */
  const HEADER: nat := 72

  /** A struct AX25Call: six characters, and the secondary station id. */
  datatype Call = Call(call: seq<Byte>, ssid: Byte)

  // ----- the decoder -----

  /** One character as DECODE_CALL stores it. */
  function Char(b: Byte): Byte { if b >> 1 == 0x20 then 0 else b >> 1 }

  function CallAt(mem: seq<Byte>, at: nat): Call
    requires at + 7 <= |mem|
  {
    Call([Char(mem[at]), Char(mem[at + 1]), Char(mem[at + 2]), Char(mem[at + 3]), Char(mem[at + 4]), Char(mem[at + 5])],
         (mem[at + 6] >> 1) & 0x0F)
  }

  function Bit(i: nat): Byte
    requires i < 8
  {
    if i == 0 then 1 else if i == 1 then 2 else if i == 2 then 4 else if i == 3 then 8
    else if i == 4 then 16 else if i == 5 then 32 else if i == 6 then 64 else 128
  }

  /** AX25_SET_REPEATED */
  function SetRepeated(flags: Byte, i: nat, on: bool): Byte
    requires i < 8
  {
    if on then flags | Bit(i) else flags & !Bit(i)
  }

  /** AX25_REPEATED */
  predicate Repeated(flags: Byte, i: nat)
    requires i < 8
  {
    flags & Bit(i) != 0
  }

  /** The repeaters read so far, their flags, and where the loop stands. */
  datatype Rpts = Rpts(list: seq<Call>, flags: Byte, end: nat)

  /** The repeater loop; `at` is where the last address's id byte lies. Nothing, if it reads beyond `mem`. */
  function ReadRpts(mem: seq<Byte>, at: nat, list: seq<Call>, flags: Byte): (r: Option<Rpts>)
    requires |list| <= MAX_RPT
    ensures r.Some? ==> at < r.value.end <= at + 7 * (MAX_RPT - |list|) + 1 && r.value.end <= |mem|
    ensures r.Some? ==> |r.value.list| <= MAX_RPT
    ensures at + 7 * (MAX_RPT - |list|) < |mem| ==> r.Some?
    decreases MAX_RPT - |list|
  {
    if at >= |mem| then None
    else if mem[at] & 0x01 != 0 || |list| >= MAX_RPT then Some(Rpts(list, flags, at + 1))
    else if at + 7 >= |mem| then None
    else
      var on := mem[at + 7] & 0x80 != 0;
      ReadRpts(mem, at + 7, list + [CallAt(mem, at + 1)], SetRepeated(flags, |list|, on))
  }

  /** A struct AX25Msg; `info` is where the payload starts, and `len` how long it is said to be. */
  datatype Msg = Msg(dst: Call, src: Call, rpts: Rpts, info: nat, len: nat)

  /** What decoding comes to; `Outside` stands for reading beyond the memory there is. */
  datatype Decoded = Refused | Message(msg: Msg) | Outside

  /** A number as a size_t. */
  function Size(n: int): nat { n % 0x1_0000_0000_0000_0000 }

  /** ax25_decode, of a frame said to have `len` bytes, at the start of `mem`. */
  function Decode(mem: seq<Byte>, len: nat): Decoded {
    if len < 17 then Refused
    else if |mem| < 14 then Outside
    else
      match ReadRpts(mem, 13, [], 0)
      case None => Outside
      case Some(rpts) =>
        if rpts.end >= |mem| then Outside
        else if mem[rpts.end] != CTRL_UI then Refused
        else if rpts.end + 1 >= |mem| then Outside
        else if mem[rpts.end + 1] != PID_NOLAYER3 then Refused
        else Message(Msg(CallAt(mem, 0), CallAt(mem, 7), rpts, rpts.end + 2, Size(len - (rpts.end + 2))))
  }

  class AX25Msg {
    var dst: Call
    var src: Call
    const rptLst: array<Call>
    var rptCnt: nat
    var rptFlags: Byte
    var ctrl: Byte
    var pid: Byte
    var info: nat
    var len: nat

    constructor ()
      ensures rptLst.Length == MAX_RPT && fresh(rptLst)
    {
      rptLst := new Call[MAX_RPT](_ => Call([], 0));
      dst, src, rptCnt, rptFlags, ctrl, pid, info, len := Call([], 0), Call([], 0), 0, 0, 0, 0, 0, 0;
    }

    ghost predicate Shows(m: Msg)
      reads this, rptLst
    {
      && dst == m.dst && src == m.src && rptCnt <= rptLst.Length && rptLst[..rptCnt] == m.rpts.list
      && rptFlags == m.rpts.flags && info == m.info && len == m.len
    }

    /** ax25_decode: 1, or -1 for a frame that is too short or not of the one kind handled. */
    method DecodeFrame(mem: seq<Byte>, frameLen: nat) returns (r: int)
      requires Decode(mem, frameLen) != Outside && rptLst.Length == MAX_RPT
      modifies this, rptLst
      ensures Decode(mem, frameLen).Refused? <==> r == -1
      ensures Decode(mem, frameLen).Message? <==> r == 1
      ensures r == 1 ==> Shows(Decode(mem, frameLen).msg) && ctrl == CTRL_UI && pid == PID_NOLAYER3
    {
      hide CallAt, ReadRpts, Size;
      dst, src, rptCnt, rptFlags, ctrl, pid, info, len := Call([], 0), Call([], 0), 0, 0, 0, 0, 0, 0;
      if frameLen < 17 {
        return -1;
      }
      CallIs(mem, 0);
      CallIs(mem, 7);
      var buf := 0;
      var call;
      call, buf := DecodeCall(mem, buf);
      dst := Call(call, (mem[buf] >> 1) & 0x0F);
      buf := buf + 1;
      call, buf := DecodeCall(mem, buf);
      src := Call(call, (mem[buf] >> 1) & 0x0F);
      buf := Repeaters(mem, buf);
      ctrl := mem[buf];
      buf := buf + 1;
      if ctrl != CTRL_UI {
        return -1;
      }
      pid := mem[buf];
      buf := buf + 1;
      if pid != PID_NOLAYER3 {
        return -1;
      }
      len := Size(frameLen - buf);
      info := buf;
      return 1;
    }

    /** DECODE_CALL */
    method DecodeCall(mem: seq<Byte>, at: nat) returns (call: seq<Byte>, buf: nat)
      requires at + 7 <= |mem|
      ensures buf == at + 6 && call == CallAt(mem, at).call
    {
      call, buf := [], at;
      var i := 0;
      while i < 6
        invariant i <= 6 && buf == at + i && |call| == i
        invariant forall k :: 0 <= k < i ==> call[k] == Char(mem[at + k])
      {
        var c := mem[buf] >> 1;
        buf := buf + 1;
        call := call + [if c == 0x20 then 0 else c];
        i := i + 1;
      }
    }

    /** The loop over repeater addresses. */
    method Repeaters(mem: seq<Byte>, at: nat) returns (buf: nat)
      requires ReadRpts(mem, at, [], 0).Some? && rptLst.Length == MAX_RPT && rptCnt == 0 && rptFlags == 0
      modifies this`rptCnt, this`rptFlags, rptLst
      ensures var r := ReadRpts(mem, at, [], 0).value;
              buf == r.end && rptCnt <= MAX_RPT && rptLst[..rptCnt] == r.list && rptFlags == r.flags
    {
      hide CallAt, SetRepeated;
      buf := at;
      while mem[buf] & 0x01 == 0 && rptCnt < MAX_RPT
        invariant rptCnt <= MAX_RPT && buf < |mem|
        invariant ReadRpts(mem, buf, rptLst[..rptCnt], rptFlags) == ReadRpts(mem, at, [], 0)
        decreases MAX_RPT - rptCnt
      {
        var call;
        call, buf := DecodeCall(mem, buf + 1);
        ghost var had := rptLst[..rptCnt];
        rptLst[rptCnt] := Call(call, (mem[buf] >> 1) & 0x0F);
        rptFlags := SetRepeated(rptFlags, rptCnt, mem[buf] & 0x80 != 0);
        CallIs(mem, buf - 6);
        assert rptLst[..rptCnt + 1] == had + [CallAt(mem, buf - 6)];
        rptCnt := rptCnt + 1;
      }
      buf := buf + 1;
    }

    lemma CallIs(mem: seq<Byte>, at: nat)
      requires at + 7 <= |mem|
      ensures CallAt(mem, at) == Call(CallAt(mem, at).call, (mem[at + 6] >> 1) & 0x0F)
    {
    }
  }

  // ----- the encoding of section 3.12 -----

  /**
   A station as it is sent: up to six characters of seven bits, none of them a space or zero, the
   id, the C or H bit, and the two reserved bits.
   */
  datatype Station = Station(name: seq<Byte>, ssid: Byte, high: bool, reserved: Byte)

  predicate GoodStation(t: Station) {
    |t.name| <= 6 && t.ssid < 16 && t.reserved < 4 && (forall c :: c in t.name ==> c < 128 && c != 0x20 && c != 0)
  }

  /** The id byte; `last` is the address extension bit. */
  function IdByte(t: Station, last: bool): Byte {
    (if t.high then 0x80 else 0) | (t.reserved << 5) | (t.ssid << 1) | (if last then 1 else 0)
  }

  function NameByte(t: Station, k: nat): Byte { (if k < |t.name| then t.name[k] else 0x20) << 1 }

  function Address(t: Station, last: bool): (a: seq<Byte>)
    ensures |a| == 7
  {
    [NameByte(t, 0), NameByte(t, 1), NameByte(t, 2), NameByte(t, 3), NameByte(t, 4), NameByte(t, 5), IdByte(t, last)]
  }

  function Path(rpts: seq<Station>): (p: seq<Byte>)
    ensures |p| == 7 * |rpts|
  {
    if rpts == [] then [] else Address(rpts[0], |rpts| == 1) + Path(rpts[1..])
  }

  /** A UI frame without a layer 3 protocol. */
  function Frame(dst: Station, src: Station, rpts: seq<Station>, payload: seq<Byte>): seq<Byte> {
    Address(dst, false) + Address(src, rpts == []) + Path(rpts) + [CTRL_UI, PID_NOLAYER3] + payload
  }

  // ----- the round trip -----

  /** A station as it is stored: the name filled up with zeros. */
  function Stored(t: Station): Call {
    Call([Filled(t, 0), Filled(t, 1), Filled(t, 2), Filled(t, 3), Filled(t, 4), Filled(t, 5)], t.ssid)
  }

  function Filled(t: Station, k: nat): Byte { if k < |t.name| then t.name[k] else 0 }

  lemma IdParts(t: Station, last: bool)
    requires GoodStation(t)
    ensures var b := IdByte(t, last);
            && (b >> 1) & 0x0F == t.ssid && (b & 0x01 != 0 <==> last) && (b & 0x80 != 0 <==> t.high)
  {
    IdBits(if t.high then 0x80 else 0, t.reserved, t.ssid, if last then 1 else 0);
  }

  lemma IdBits(h: Byte, r: Byte, s: Byte, e: Byte)
    requires (h == 0 || h == 0x80) && r < 4 && s < 16 && e < 2
    ensures var b := h | (r << 5) | (s << 1) | e; (b >> 1) & 0x0F == s && b & 0x01 == e && b & 0x80 == h
  {
  }

  lemma CharBack(c: Byte)
    requires c < 128
    ensures Char(c << 1) == if c == 0x20 then 0 else c
  {
  }

  /** `bytes` lie in `mem` from `at` on. */
  predicate Lies(mem: seq<Byte>, at: nat, bytes: seq<Byte>) {
    at + |bytes| <= |mem| && mem[at..at + |bytes|] == bytes
  }

  lemma AddressBack(mem: seq<Byte>, at: nat, t: Station, last: bool)
    requires GoodStation(t) && Lies(mem, at, Address(t, last))
    ensures at + 7 <= |mem| && CallAt(mem, at) == Stored(t)
    ensures (mem[at + 6] & 0x01 != 0 <==> last) && (mem[at + 6] & 0x80 != 0 <==> t.high)
  {
    hide IdByte, Char;
    IdParts(t, last);
    forall k | 0 <= k < 6 ensures Char(mem[at + k]) == Filled(t, k) {
      assert mem[at..at + 7][k] == Address(t, last)[k] == NameByte(t, k);
      assert k < |t.name| ==> t.name[k] in t.name;
      CharBack(if k < |t.name| then t.name[k] else 0x20);
    }
    assert mem[at..at + 7][6] == IdByte(t, last);
    assert Char(mem[at]) == Filled(t, 0);
  }

  /** Which repeaters of a path are marked as having repeated, given flags for the first `n`. */
  predicate FlagsShow(flags: Byte, done: seq<Station>)
    requires |done| <= 8
  {
    forall k :: 0 <= k < |done| ==> (Repeated(flags, k) <==> done[k].high)
  }

  lemma SetBits(flags: Byte, i: nat, on: bool, j: nat)
    requires i < 8 && j < 8
    ensures Repeated(SetRepeated(flags, i, on), j) <==> if i == j then on else Repeated(flags, j)
  {
    BitsApart(flags, Bit(i), Bit(j));
  }

  lemma BitsApart(f: Byte, a: Byte, b: Byte)
    requires a in {1, 2, 4, 8, 16, 32, 64, 128} && b in {1, 2, 4, 8, 16, 32, 64, 128}
    ensures (f | a) & b != 0 <==> (a == b || f & b != 0)
    ensures (f & !a) & b != 0 <==> (a != b && f & b != 0)
  {
  }

  function StoredAll(ts: seq<Station>): (r: seq<Call>)
    ensures |r| == |ts| && (forall k :: 0 <= k < |ts| ==> r[k] == Stored(ts[k]))
  {
    if ts == [] then [] else [Stored(ts[0])] + StoredAll(ts[1..])
  }

  lemma LiesApart(mem: seq<Byte>, at: nat, a: seq<Byte>, b: seq<Byte>)
    requires Lies(mem, at, a + b)
    ensures Lies(mem, at, a) && Lies(mem, at + |a|, b)
  {
    var p := mem[at..at + |a + b|];
    assert p[..|a|] == a && p[|a|..] == b;
  }

  lemma PathParts(mem: seq<Byte>, at: nat, rest: seq<Station>)
    requires rest != [] && Lies(mem, at, Path(rest))
    ensures Lies(mem, at, Address(rest[0], |rest| == 1)) && Lies(mem, at + 7, Path(rest[1..]))
  {
    hide Address, Lies;
    LiesApart(mem, at, Address(rest[0], |rest| == 1), Path(rest[1..]));
  }

  /** One repeater more, and its flag. */
  lemma OneMore(flags: Byte, done: seq<Station>, t: Station)
    requires |done| < 8 && FlagsShow(flags, done)
    ensures FlagsShow(SetRepeated(flags, |done|, t.high), done + [t])
  {
    hide Repeated, SetRepeated, Bit;
    var flags', more := SetRepeated(flags, |done|, t.high), done + [t];
    forall k | 0 <= k < |more| ensures Repeated(flags', k) <==> more[k].high {
      SetBits(flags, |done|, t.high, k);
      assert more[k] == if k < |done| then done[k] else t;
    }
  }

  lemma {:induction false} StoredNext(done: seq<Station>, t: Station)
    ensures StoredAll(done + [t]) == StoredAll(done) + [Stored(t)]
  {
    hide Stored;
    var a, b := StoredAll(done + [t]), StoredAll(done) + [Stored(t)];
    assert forall k :: 0 <= k < |a| ==> a[k] == b[k];
  }

  lemma ReadStep(mem: seq<Byte>, at: nat, list: seq<Call>, flags: Byte)
    requires |list| <= MAX_RPT && at < |mem|
    ensures mem[at] & 0x01 != 0 || |list| >= MAX_RPT ==>
              ReadRpts(mem, at, list, flags) == Some(Rpts(list, flags, at + 1))
    ensures mem[at] & 0x01 == 0 && |list| < MAX_RPT && at + 7 < |mem| ==>
              ReadRpts(mem, at, list, flags) ==
              ReadRpts(mem, at + 7, list + [CallAt(mem, at + 1)], SetRepeated(flags, |list|, mem[at + 7] & 0x80 != 0))
  {
    hide CallAt, SetRepeated;
  }

  /** The repeater loop over the rest of a path, with `done` read already. */
  lemma {:induction false} PathBack(mem: seq<Byte>, at: nat, done: seq<Station>, rest: seq<Station>, flags: Byte)
    requires |done| + |rest| <= MAX_RPT && at < |mem|
    requires (forall t :: t in rest ==> GoodStation(t)) && Lies(mem, at + 1, Path(rest))
    requires mem[at] & 0x01 != 0 <==> rest == []
    requires FlagsShow(flags, done)
    ensures match ReadRpts(mem, at, StoredAll(done), flags)
            case None => false
            case Some(r) =>
              r.list == StoredAll(done + rest) && r.end == at + 7 * |rest| + 1 && FlagsShow(r.flags, done + rest)
    decreases |rest|
  {
    hide CallAt, SetRepeated, Repeated, Address, Stored, Path, FlagsShow, ReadRpts, GoodStation, Lies;
    ReadStep(mem, at, StoredAll(done), flags);
    if rest == [] {
      assert done + rest == done;
    } else {
      var t := rest[0];
      assert t in rest;
      PathParts(mem, at + 1, rest);
      AddressBack(mem, at + 1, t, |rest| == 1);
      OneMore(flags, done, t);
      StoredNext(done, t);
      PathBack(mem, at + 7, done + [t], rest[1..], SetRepeated(flags, |done|, t.high));
      assert done + [t] + rest[1..] == done + rest;
    }
  }

  /** A message with these stations, and these marks on the repeaters. */
  predicate Tells(m: Msg, dst: Station, src: Station, rpts: seq<Station>)
    requires |rpts| <= MAX_RPT
  {
    && m.dst == Stored(dst) && m.src == Stored(src) && m.rpts.list == StoredAll(rpts)
    && FlagsShow(m.rpts.flags, rpts) && m.info == 16 + 7 * |rpts|
  }

  /**
   Decoding the bytes of a frame gives its stations and which of its repeaters have repeated it,
   whatever length `told` the caller gives, if it is 17 or more; the length of the payload is what
   `told` leaves of it, wrapped.
   */
  lemma DecodeTold(mem: seq<Byte>, dst: Station, src: Station, rpts: seq<Station>, payload: seq<Byte>, told: nat)
    requires GoodStation(dst) && GoodStation(src) && (forall t :: t in rpts ==> GoodStation(t)) && |rpts| <= MAX_RPT
    requires Frame(dst, src, rpts, payload) <= mem && told >= 17
    ensures Decode(mem, told).Message? && Tells(Decode(mem, told).msg, dst, src, rpts)
    ensures Decode(mem, told).msg.len == Size(told - (16 + 7 * |rpts|))
  {
    hide CallAt, Address, Stored, ReadRpts, Frame, Path, GoodStation, Lies;
    NoFlags();
    var n := 14 + 7 * |rpts|;
    FrameParts(mem, dst, src, rpts, payload);
    AddressBack(mem, 0, dst, false);
    AddressBack(mem, 7, src, rpts == []);
    assert [] + rpts == rpts && StoredAll([]) == [];
    PathBack(mem, 13, [], rpts, 0);
  }

  /**
   Decoding a frame gives back its stations, which of its repeaters have repeated it, and its
   payload, unless the frame is shorter than 17 bytes: no repeater and no payload.
   */
  lemma DecodeBack(mem: seq<Byte>, dst: Station, src: Station, rpts: seq<Station>, payload: seq<Byte>)
    requires GoodStation(dst) && GoodStation(src) && (forall t :: t in rpts ==> GoodStation(t)) && |rpts| <= MAX_RPT
    requires Frame(dst, src, rpts, payload) <= mem
    requires |Frame(dst, src, rpts, payload)| < 0x1_0000_0000_0000_0000
    ensures match Decode(mem, |Frame(dst, src, rpts, payload)|)
            case Refused => rpts == [] && payload == []
            case Outside => false
            case Message(m) =>
              && Tells(m, dst, src, rpts) && (rpts != [] || payload != [])
              && m.len == |payload| && Lies(mem, m.info, payload)
  {
    hide CallAt, Address, Stored, ReadRpts, Frame, Path, GoodStation, Lies, Decode, FlagsShow;
    FrameParts(mem, dst, src, rpts, payload);
    var told := |Frame(dst, src, rpts, payload)|;
    if told >= 17 {
      DecodeTold(mem, dst, src, rpts, payload, told);
    } else {
      TooShort(mem, told);
    }
  }

  lemma TooShort(mem: seq<Byte>, told: nat)
    requires told < 17
    ensures Decode(mem, told) == Refused
  {
  }

  // ----- where the payload lies -----

  /** Ten addresses, control and PID are all that is read. */
  lemma NeverOutside(mem: seq<Byte>, len: nat)
    requires |mem| >= HEADER
    ensures Decode(mem, len) != Outside
  {
  }

  /** The loop reads nothing from the place on where it ends. */
  lemma {:induction false} ReadsBefore(mem: seq<Byte>, n: nat, at: nat, list: seq<Call>, flags: Byte)
    requires |list| <= MAX_RPT && n <= |mem|
    ensures var all, cut := ReadRpts(mem, at, list, flags), ReadRpts(mem[..n], at, list, flags);
            cut == if all.Some? && all.value.end <= n then all else None
    decreases MAX_RPT - |list|
  {
    hide CallAt, SetRepeated;
    if at + 7 < n && mem[at] & 0x01 == 0 && |list| < MAX_RPT {
      CallCut(mem, n, at + 1);
      ReadsBefore(mem, n, at + 7, list + [CallAt(mem, at + 1)], SetRepeated(flags, |list|, mem[at + 7] & 0x80 != 0));
    }
  }

  lemma CallCut(mem: seq<Byte>, n: nat, at: nat)
    requires at + 7 <= n <= |mem|
    ensures CallAt(mem[..n], at) == CallAt(mem, at)
  {
  }

  /** The path has `k` repeaters: the first address with the extension bit ends it, or the eighth repeater. */
  predicate PathEnds(mem: seq<Byte>, k: nat) {
    && k <= MAX_RPT && 13 + 7 * k < |mem| && (k == MAX_RPT || mem[13 + 7 * k] & 0x01 != 0)
    && forall j :: 0 <= j < k ==> mem[13 + 7 * j] & 0x01 == 0
  }

  lemma {:induction false} EndsThere(mem: seq<Byte>, k: nat, list: seq<Call>, flags: Byte)
    requires k == |list| <= MAX_RPT && ReadRpts(mem, 13 + 7 * k, list, flags).Some?
    requires forall j :: 0 <= j < k ==> 13 + 7 * j < |mem| && mem[13 + 7 * j] & 0x01 == 0
    ensures exists n: nat :: PathEnds(mem, n) && ReadRpts(mem, 13 + 7 * k, list, flags).value.end == 14 + 7 * n
    decreases MAX_RPT - k
  {
    hide CallAt, SetRepeated;
    if mem[13 + 7 * k] & 0x01 != 0 || k >= MAX_RPT {
      assert PathEnds(mem, k);
    } else {
      var at := 13 + 7 * k;
      EndsThere(mem, k + 1, list + [CallAt(mem, at + 1)], SetRepeated(flags, k, mem[at + 7] & 0x80 != 0));
    }
  }

  /**
   An accepted payload lies inside the frame if and only if the addresses, control and PID do, and
   so if and only if the frame's own bytes are enough to decode it; otherwise its length has wrapped.
   */
  lemma InsideIff(mem: seq<Byte>, len: nat)
    requires len <= |mem| && len < 0x1_0000_0000_0000_0000 && Decode(mem, len).Message?
    ensures exists k: nat :: PathEnds(mem, k) && Decode(mem, len).msg.info == 16 + 7 * k
    ensures forall k: nat :: PathEnds(mem, k) ==>
              var m := Decode(mem, len).msg;
              && m.info == 16 + 7 * k
              && (16 + 7 * k <= len ==> m.info + m.len == len && Decode(mem[..len], len) == Decode(mem, len))
              && (16 + 7 * k > len ==> m.len == 0x1_0000_0000_0000_0000 + len - m.info && Decode(mem[..len], len) == Outside)
  {
    hide CallAt, ReadRpts;
    ReadsBefore(mem, len, 13, [], 0);
    EndsThere(mem, 0, [], 0);
    CallCut(mem, len, 0);
    CallCut(mem, len, 7);
  }

  /** Whatever lies in the memory, a frame is accepted exactly if it is long enough and of the one kind behind its path. */
  lemma AcceptIff(mem: seq<Byte>, len: nat)
    requires |mem| >= HEADER
    ensures exists k: nat :: PathEnds(mem, k)
    ensures forall k: nat :: PathEnds(mem, k) ==>
              (Decode(mem, len).Message? <==> len >= 17 && mem[14 + 7 * k] == CTRL_UI && mem[15 + 7 * k] == PID_NOLAYER3)
  {
    hide CallAt, ReadRpts, Size;
    EndsThere(mem, 0, [], 0);
  }

  /** A frame with repeaters, cut short but still followed by the rest of it, is accepted all the same. */
  lemma CutIsAccepted(mem: seq<Byte>, dst: Station, src: Station, rpts: seq<Station>, payload: seq<Byte>, told: nat)
    requires GoodStation(dst) && GoodStation(src) && (forall t :: t in rpts ==> GoodStation(t)) && |rpts| <= MAX_RPT
    requires Frame(dst, src, rpts, payload) <= mem && 17 <= told < 16 + 7 * |rpts|
    ensures Decode(mem, told).Message? && Decode(mem, told).msg.len == 0x1_0000_0000_0000_0000 + told - (16 + 7 * |rpts|)
  {
    hide Decode, Frame, GoodStation, FlagsShow, Stored;
    DecodeTold(mem, dst, src, rpts, payload, told);
  }

  lemma NoFlags()
    ensures FlagsShow(0, [])
  {
  }

  /** Where the parts of a frame lie. */
  lemma FrameParts(mem: seq<Byte>, dst: Station, src: Station, rpts: seq<Station>, payload: seq<Byte>)
    requires Frame(dst, src, rpts, payload) <= mem
    ensures var n := 14 + 7 * |rpts|;
            && |Frame(dst, src, rpts, payload)| == n + 2 + |payload| <= |mem|
            && Lies(mem, 0, Address(dst, false)) && Lies(mem, 7, Address(src, rpts == [])) && Lies(mem, 14, Path(rpts))
            && mem[n] == CTRL_UI && mem[n + 1] == PID_NOLAYER3 && Lies(mem, n + 2, payload)
  {
    hide Address, Path, Lies, Frame;
    var a, b, p, c := Address(dst, false), Address(src, rpts == []), Path(rpts), [CTRL_UI, PID_NOLAYER3];
    FrameLies(mem, Frame(dst, src, rpts, payload));
    FrameIs(dst, src, rpts, payload);
    LiesApart(mem, 0, a, b + (p + (c + payload)));
    LiesApart(mem, 7, b, p + (c + payload));
    LiesApart(mem, 14, p, c + payload);
    LiesApart(mem, 14 + |p|, c, payload);
    LiesThere(mem, 14 + |p|, c);
  }

  lemma FrameIs(dst: Station, src: Station, rpts: seq<Station>, payload: seq<Byte>)
    ensures Frame(dst, src, rpts, payload)
         == Address(dst, false) + (Address(src, rpts == []) + (Path(rpts) + ([CTRL_UI, PID_NOLAYER3] + payload)))
  {
    hide Address, Path;
  }

  lemma FrameLies(mem: seq<Byte>, f: seq<Byte>)
    requires f <= mem
    ensures Lies(mem, 0, f)
  {
  }

  lemma LiesThere(mem: seq<Byte>, at: nat, bytes: seq<Byte>)
    requires Lies(mem, at, bytes)
    ensures at + |bytes| <= |mem| && mem[at..at + |bytes|] == bytes
    ensures forall k :: 0 <= k < |bytes| ==> mem[at + k] == bytes[k]
  {
    forall k | 0 <= k < |bytes| ensures mem[at + k] == bytes[k] {
      assert mem[at..at + |bytes|][k] == mem[at + k];
    }
  }
}
