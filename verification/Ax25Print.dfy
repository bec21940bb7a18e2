/**
 The text that src/ax25.c prints for a frame: it fits the buffers it is built in, and from it the
 stations and the marks of the repeaters can be told.
 */
module Ax25Print {
  import opened Options
  import opened Ax25

  const GREATER: Byte := 62
  const COMMA: Byte := 44
  const COLON: Byte := 58
  const STAR: Byte := 42
  const DASH: Byte := 45

  /** The characters before the first zero, as %s prints them. */
  function UpToNul(s: seq<Byte>): (r: seq<Byte>)
    ensures r <= s && 0 !in r
  {
    if s == [] || s[0] == 0 then [] else [s[0]] + UpToNul(s[1..])
  }

  /** %d of a number below 16. */
  function Decimal(n: Byte): (r: seq<Byte>)
    ensures 1 <= |r| <= 2
  {
    if n < 10 then [48 + n] else [49, 38 + n]
  }

  /** print_call */
  function CallText(c: Call): seq<Byte> {
    UpToNul(c.call) + if c.ssid != 0 then [DASH] + Decimal(c.ssid) else []
  }

  /** The path that ax25_print builds: the repeaters from `k` on. */
  function PathText(list: seq<Call>, flags: Byte, k: nat): seq<Byte>
    requires k <= |list| <= MAX_RPT
    decreases |list| - k
  {
    if k == |list| then []
    else Item(list[k], Repeated(flags, k)) + PathText(list, flags, k + 1)
  }

  /** A repeater in the path, with a star if it has repeated the frame. */
  function Item(c: Call, star: bool): seq<Byte> { [COMMA] + CallText(c) + if star then [STAR] else [] }

  function Header(m: Msg): seq<Byte>
    requires |m.rpts.list| <= MAX_RPT
  {
    CallText(m.src) + [GREATER] + CallText(m.dst) + PathText(m.rpts.list, m.rpts.flags, 0)
  }

  /** ax25_print, before snprintf cuts the text to the caller's buffer; `info` is the payload. */
  function Text(m: Msg, info: seq<Byte>): seq<Byte>
    requires |m.rpts.list| <= MAX_RPT
  {
    Header(m) + [COLON] + UpToNul(info) + [13, 10]
  }

  // ----- the local buffers -----

  lemma CallFits(c: Call)
    requires |c.call| == 6 && c.ssid < 16
    ensures |CallText(c)| + 1 <= 10
  {
  }

  /** With up to eight repeaters the path and its closing zero fit 128 bytes, and a call fits ten. */
  lemma {:induction false} PathFits(list: seq<Call>, flags: Byte, k: nat)
    requires k <= |list| <= MAX_RPT && (forall c :: c in list ==> |c.call| == 6 && c.ssid < 16)
    ensures |PathText(list, flags, k)| + 1 <= 11 * (|list| - k) + 1 <= 128
    decreases |list| - k
  {
    if k < |list| {
      CallFits(list[k]);
      PathFits(list, flags, k + 1);
    }
  }

  /** sprintf of a text: its bytes and a closing zero. */
  method Sprint(buf: array<Byte>, at: nat, text: seq<Byte>)
    requires at + |text| < buf.Length
    modifies buf
    ensures buf[..at + |text|] == old(buf[..at]) + text && buf[at + |text|] == 0
  {
    forall k | 0 <= k < |text| {
      buf[at + k] := text[k];
    }
    buf[at + |text|] := 0;
  }

  /** print_call */
  method PrintCall(buf: array<Byte>, at: nat, c: Call) returns (i: nat)
    requires |c.call| == 6 && c.ssid < 16 && at + 10 <= buf.Length
    modifies buf
    ensures i == |CallText(c)| && i < 10 && buf[..at + i] == old(buf[..at]) + CallText(c) && buf[at + i] == 0
  {
    CallFits(c);
    Sprint(buf, at, UpToNul(c.call));
    i := |UpToNul(c.call)|;
    if c.ssid != 0 {
      Sprint(buf, at + i, [DASH] + Decimal(c.ssid));
      i := i + 1 + |Decimal(c.ssid)|;
    }
  }

  /** A repeater in the path; nothing else in the buffer before it changes. */
  method PrintItem(path: array<Byte>, at: nat, c: Call, star: bool) returns (p: nat)
    requires |c.call| == 6 && c.ssid < 16 && at + 12 <= path.Length
    modifies path
    ensures at < p <= at + 11 && path[..p] == old(path[..at]) + Item(c, star)
  {
    hide CallText;
    path[at] := COMMA;
    assert path[..at + 1] == old(path[..at]) + [COMMA];
    var n := PrintCall(path, at + 1, c);
    p := at + 1 + n;
    if star {
      path[p] := STAR;
      p := p + 1;
    }
  }

  /** The loop of ax25_print over the repeaters, into its 128 byte path. */
  method PrintPath(list: seq<Call>, flags: Byte, path: array<Byte>) returns (p: nat)
    requires |list| <= MAX_RPT && (forall c :: c in list ==> |c.call| == 6 && c.ssid < 16) && path.Length == 128
    modifies path
    ensures p < 128 && path[..p] == PathText(list, flags, 0) && path[p] == 0
  {
    hide Item, Repeated;
    p := 0;
    var i := 0;
    while i < |list|
      invariant i <= |list| && p <= 11 * i && path[..p] + PathText(list, flags, i) == PathText(list, flags, 0)
    {
      assert list[i] in list;
      ghost var before, item, after := path[..p], Item(list[i], Repeated(flags, i)), PathText(list, flags, i + 1);
      p := PrintItem(path, p, list[i], Repeated(flags, i));
      assert before + (item + after) == (before + item) + after;
      i := i + 1;
    }
    path[p] := 0;
  }

  // ----- what the text tells -----

  predicate Alphanumeric(c: Byte) { 48 <= c <= 57 || 65 <= c <= 90 || 97 <= c <= 122 }

  /** A call of letters and digits, filled up with zeros. */
  predicate GoodCall(c: Call) {
    |c.call| == 6 && c.ssid < 16
    && (forall k :: 0 <= k < 6 ==> c.call[k] == 0 || Alphanumeric(c.call[k]))
    && (forall j, k :: 0 <= j < k < 6 && c.call[j] == 0 ==> c.call[k] == 0)
  }

  lemma {:induction false} NamePlain(s: seq<Byte>)
    requires forall k :: 0 <= k < |s| ==> s[k] == 0 || Alphanumeric(s[k])
    ensures forall c :: c in UpToNul(s) ==> Alphanumeric(c)
  {
    if s != [] && s[0] != 0 {
      NamePlain(s[1..]);
    }
  }

  // ----- reading it back -----

  /** A character of the format. */
  function Ascii(c: char): Byte
    requires c < 128 as char
  {
    c as int as Byte
  }

  /** The letters and digits that a text begins with. */
  function Front(s: seq<Byte>): (a: seq<Byte>)
    ensures a <= s
  {
    if s == [] || !Alphanumeric(s[0]) then [] else [s[0]] + Front(s[1..])
  }

  predicate IsNumeral(s: seq<Byte>) {
    s != [] && (forall c :: c in s ==> Ascii('0') <= c <= Ascii('9')) && (|s| > 1 ==> s[0] != Ascii('0'))
  }

  /** What a numeral means. */
  function Numeral(s: seq<Byte>): nat
    requires forall c :: c in s ==> Ascii('0') <= c <= Ascii('9')
  {
    if s == [] then 0
    else
      var front := s[..|s| - 1];
      assert forall c :: c in front ==> c in s;
      10 * Numeral(front) + (s[|s| - 1] - Ascii('0')) as nat
  }

  /** A station as it is written: a name of up to six letters and digits, and, if it is not 0, the id behind a dash. */
  function ReadCall(s: seq<Byte>): Option<(Call, seq<Byte>)> {
    var name := Front(s);
    var rest := s[|name|..];
    if |name| > 6 then None
    else if rest == [] || rest[0] != Ascii('-') then Some((Call(name + seq(6 - |name|, _ => 0), 0), rest))
    else
      var id := Front(rest[1..]);
      if !IsNumeral(id) || Numeral(id) > 15 then None
      else Some((Call(name + seq(6 - |name|, _ => 0), Numeral(id) as Byte), rest[1 + |id|..]))
  }

  /** The header of a packet in the TNC-2 format, and what comes after it. */
  datatype Heading = Heading(src: Call, dst: Call, path: seq<Call>, marks: seq<bool>, rest: seq<Byte>)

  /** ",CALL*,CALL:" */
  function ReadPath(s: seq<Byte>): Option<(seq<Call>, seq<bool>, seq<Byte>)>
    decreases |s|
  {
    if s == [] then None
    else if s[0] == Ascii(':') then Some(([], [], s[1..]))
    else if s[0] != Ascii(',') then None
    else
      match ReadCall(s[1..])
      case None => None
      case Some((c, rest)) =>
        var star := rest != [] && rest[0] == Ascii('*');
        ReadCallShorter(s[1..]);
        match ReadPath(if star then rest[1..] else rest)
        case None => None
        case Some((path, marks, after)) => Some(([c] + path, [star] + marks, after))
  }

  lemma ReadCallShorter(s: seq<Byte>)
    ensures ReadCall(s).Some? ==> |ReadCall(s).value.1| <= |s|
  {
    hide IsNumeral, Numeral;
  }

  /** "CALL>CALL,CALL*,CALL:" */
  function ReadHeading(s: seq<Byte>): Option<Heading> {
    match ReadCall(s)
    case None => None
    case Some((src, r1)) =>
      if r1 == [] || r1[0] != Ascii('>') then None
      else
        match ReadCall(r1[1..])
        case None => None
        case Some((dst, r2)) =>
          match ReadPath(r2)
          case None => None
          case Some((path, marks, rest)) => Some(Heading(src, dst, path, marks, rest))
  }

  // ----- the printed text is in that format -----

  lemma Separators()
    ensures Ascii('>') == GREATER && Ascii(',') == COMMA && Ascii(':') == COLON && Ascii('*') == STAR && Ascii('-') == DASH
    ensures Ascii('0') == 48 && Ascii('9') == 57 && Ascii('\r') == 13 && Ascii('\n') == 10
  {
  }

  lemma {:induction false} FrontIs(a: seq<Byte>, x: seq<Byte>)
    requires (forall c :: c in a ==> Alphanumeric(c)) && (x == [] || !Alphanumeric(x[0]))
    ensures Front(a + x) == a
    decreases |a|
  {
    if a == [] {
      assert a + x == x;
    } else {
      assert (a + x)[0] == a[0] && a[0] in a && (a + x)[1..] == a[1..] + x;
      FrontIs(a[1..], x);
    }
  }

  /** %d prints the number, in decimal, without a leading zero. */
  lemma DecimalIs(n: Byte)
    requires n < 16
    ensures IsNumeral(Decimal(n)) && Numeral(Decimal(n)) == n as nat
  {
    var d := Decimal(n);
    if |d| == 2 {
      assert d[..1] == [d[0]] && [d[0]][..0] == [];
      assert Numeral([d[0]]) == (d[0] - 48) as nat;
    } else {
      assert d[..0] == [];
    }
  }

  /** What can follow a printed call. */
  predicate Stops(x: seq<Byte>) {
    x != [] && (x[0] == Ascii('>') || x[0] == Ascii(',') || x[0] == Ascii('*') || x[0] == Ascii(':'))
  }

  lemma StopsThere(x: seq<Byte>)
    requires Stops(x)
    ensures x != [] && !Alphanumeric(x[0]) && x[0] != Ascii('-')
  {
    hide Ascii;
    Separators();
  }

  /** A name filled up with zeros is its printed part, and zeros. */
  lemma {:induction false} Refilled(s: seq<Byte>)
    requires forall j, k :: 0 <= j < k < |s| && s[j] == 0 ==> s[k] == 0
    ensures UpToNul(s) + seq(|s| - |UpToNul(s)|, _ => 0) == s
    decreases |s|
  {
    if s != [] && s[0] != 0 {
      Refilled(s[1..]);
      assert UpToNul(s) == [s[0]] + UpToNul(s[1..]);
    }
  }

  lemma CallReads(c: Call, x: seq<Byte>)
    requires GoodCall(c) && Stops(x)
    ensures ReadCall(CallText(c) + x) == Some((c, x))
  {
    hide Front, UpToNul, Decimal, IsNumeral, Numeral, Ascii, ReadCall;
    Separators();
    var name, id := UpToNul(c.call), Decimal(c.ssid);
    NamePlain(c.call);
    Refilled(c.call);
    StopsThere(x);
    if c.ssid != 0 {
      DecimalIs(c.ssid);
      NumeralPlain(id);
      FrontIs(name, [DASH] + (id + x));
      FrontIs(id, x);
      assert CallText(c) + x == name + ([DASH] + (id + x));
      IdReads(name, id, x);
    } else {
      FrontIs(name, x);
      assert CallText(c) + x == name + x;
      NameReads(name, x);
    }
  }

  lemma NameReads(name: seq<Byte>, x: seq<Byte>)
    requires |name| <= 6 && Front(name + x) == name && x != [] && x[0] != DASH
    ensures ReadCall(name + x) == Some((Call(name + seq(6 - |name|, _ => 0), 0), x))
  {
    hide Front, IsNumeral, Numeral, Ascii;
    Separators();
    assert (name + x)[|name|..] == x;
  }

  lemma IdReads(name: seq<Byte>, id: seq<Byte>, x: seq<Byte>)
    requires |name| <= 6 && Front(name + ([DASH] + (id + x))) == name && Front(id + x) == id && IsNumeral(id) && Numeral(id) <= 15
    ensures ReadCall(name + ([DASH] + (id + x))) == Some((Call(name + seq(6 - |name|, _ => 0), Numeral(id) as Byte), x))
  {
    hide Front, Numeral, Ascii;
    Separators();
    var rest := [DASH] + (id + x);
    assert (name + rest)[|name|..] == rest && rest[1..] == id + x && rest[1 + |id|..] == x;
  }

  lemma NumeralPlain(s: seq<Byte>)
    requires IsNumeral(s)
    ensures forall c :: c in s ==> Alphanumeric(c)
  {
    hide Ascii;
    Separators();
  }

  /** A message as the decoder leaves it, with alphanumeric calls. */
  predicate GoodMsg(m: Msg) {
    && |m.rpts.list| <= MAX_RPT && GoodCall(m.dst) && GoodCall(m.src)
    && (forall c :: c in m.rpts.list ==> GoodCall(c))
  }

  function Marks(flags: Byte, k: nat, n: nat): seq<bool>
    requires k <= n <= MAX_RPT
    decreases n - k
  {
    if k == n then [] else [Repeated(flags, k)] + Marks(flags, k + 1, n)
  }

  lemma {:induction false} PathReads(list: seq<Call>, flags: Byte, k: nat, rest: seq<Byte>)
    requires k <= |list| <= MAX_RPT && (forall c :: c in list ==> GoodCall(c))
    ensures ReadPath(PathText(list, flags, k) + [COLON] + rest) == Some((list[k..], Marks(flags, k, |list|), rest))
    decreases |list| - k
  {
    hide CallText, Repeated, GoodCall, ReadCall, ReadPath, PathText, Ascii, Item;
    PathStep(list, flags, k, rest);
    if k < |list| {
      assert list[k] in list;
      PathReads(list, flags, k + 1, rest);
      NextStops(list, flags, k + 1, rest);
      var star, next := Repeated(flags, k), PathText(list, flags, k + 1) + [COLON] + rest;
      var after := if star then [STAR] + next else next;
      StopsHere(next);
      CallReads(list[k], after);
      StarReads(CallText(list[k]) + after, list[k], star, next);
      assert list[k..] == [list[k]] + list[k + 1..];
    } else {
      assert list[k..] == [];
    }
  }

  lemma StopsHere(next: seq<Byte>)
    requires next != [] && (next[0] == Ascii(':') || next[0] == Ascii(','))
    ensures next[0] != STAR
  {
    hide Ascii;
    Separators();
  }

  lemma PathStep(list: seq<Call>, flags: Byte, k: nat, rest: seq<Byte>)
    requires k <= |list| <= MAX_RPT
    ensures var s := PathText(list, flags, k) + [COLON] + rest;
            if k == |list| then ReadPath(s) == Some(([], [], rest))
            else
              var next := PathText(list, flags, k + 1) + [COLON] + rest;
              s == [COMMA] + (CallText(list[k]) + if Repeated(flags, k) then [STAR] + next else next)
  {
    hide CallText, Repeated, Ascii, ReadCall;
    Separators();
    if k == |list| {
      assert PathText(list, flags, k) + [COLON] + rest == [COLON] + rest;
      assert ([COLON] + rest)[1..] == rest;
    }
  }

  /** One repeater, with its star, and then the rest of the path. */
  lemma StarReads(s: seq<Byte>, c: Call, star: bool, next: seq<Byte>)
    requires ReadCall(s) == Some((c, if star then [STAR] + next else next)) && next != [] && next[0] != STAR
    ensures ReadPath([COMMA] + s) ==
              match ReadPath(next) case None => None case Some((path, marks, rest)) => Some(([c] + path, [star] + marks, rest))
  {
    hide ReadCall, Ascii;
    Separators();
    assert ([COMMA] + s)[1..] == s && ([STAR] + next)[1..] == next;
  }

  lemma NextStops(list: seq<Call>, flags: Byte, k: nat, rest: seq<Byte>)
    requires k <= |list| <= MAX_RPT
    ensures var next := PathText(list, flags, k) + [COLON] + rest;
            next != [] && next[0] == (if k == |list| then Ascii(':') else Ascii(',')) && Stops(next) && Stops([STAR] + next)
  {
    hide CallText, Repeated, Ascii;
    Separators();
  }

  /**
   The text printed for a frame, read by the format, has its source, its destination, its repeaters with the right
   marks, and the payload up to its first zero byte, with a line end.
   */
  lemma TextReads(m: Msg, info: seq<Byte>)
    requires GoodMsg(m)
    ensures ReadHeading(Text(m, info)) ==
              Some(Heading(m.src, m.dst, m.rpts.list, Marks(m.rpts.flags, 0, |m.rpts.list|), UpToNul(info) + [Ascii('\r'), Ascii('\n')]))
  {
    hide CallText, Repeated, GoodCall, UpToNul, PathText, ReadCall, ReadPath, Marks, Ascii;
    Separators();
    var rest := UpToNul(info) + [13, 10];
    var path := PathText(m.rpts.list, m.rpts.flags, 0) + [COLON] + rest;
    var dst := CallText(m.dst) + path;
    assert Text(m, info) == CallText(m.src) + ([GREATER] + dst);
    NextStops(m.rpts.list, m.rpts.flags, 0, rest);
    CallReads(m.src, [GREATER] + dst);
    assert ([GREATER] + dst)[1..] == dst;
    CallReads(m.dst, path);
    PathReads(m.rpts.list, m.rpts.flags, 0, rest);
    assert m.rpts.list[0..] == m.rpts.list;
  }

  lemma {:induction false} MarksAt(flags: Byte, k: nat, n: nat, j: nat)
    requires k <= j < n <= MAX_RPT
    ensures |Marks(flags, k, n)| == n - k && (Marks(flags, k, n)[j - k] <==> Repeated(flags, j))
    decreases n - k
  {
    hide Repeated;
    if k < j {
      MarksAt(flags, k + 1, n, j);
    } else if k + 1 < n {
      MarksAt(flags, k + 1, n, k + 1);
    }
  }

  /** So it tells them all: two frames that print alike are alike in these. */
  lemma TextTells(m: Msg, info: seq<Byte>, m': Msg, info': seq<Byte>)
    requires GoodMsg(m) && GoodMsg(m') && Text(m, info) == Text(m', info')
    ensures m.src == m'.src && m.dst == m'.dst && m.rpts.list == m'.rpts.list
    ensures forall j :: 0 <= j < |m.rpts.list| ==> (Repeated(m.rpts.flags, j) <==> Repeated(m'.rpts.flags, j))
    ensures UpToNul(info) == UpToNul(info')
  {
    hide Text, ReadHeading, Repeated, UpToNul, GoodCall, Marks, Ascii;
    TextReads(m, info);
    TextReads(m', info');
    forall j | 0 <= j < |m.rpts.list|
      ensures Repeated(m.rpts.flags, j) <==> Repeated(m'.rpts.flags, j)
    {
      MarksAt(m.rpts.flags, 0, |m.rpts.list|, j);
      MarksAt(m'.rpts.flags, 0, |m.rpts.list|, j);
    }
    var a, b := UpToNul(info), UpToNul(info');
    assert (a + [Ascii('\r'), Ascii('\n')])[..|a|] == a && (b + [Ascii('\r'), Ascii('\n')])[..|b|] == b;
  }
}
