/** The codes that src/json.c computes with, against how the standards write them. */
module JsonCodes {
  import opened JsonParser
  import T = JsonText

  // ----- hexadecimal digits -----

  const LOWER := "0123456789abcdef"
  const UPPER := "0123456789ABCDEF"

  /** A digit is worth its place. */
  predicate Worth(c: char, v: nat) { v < 16 && (LOWER[v] == c || UPPER[v] == c) }

  lemma HexIs(c: char)
    ensures HexValue(c) < 16 || HexValue(c) == 0xFF
    ensures forall v: nat | v < 16 :: Worth(c, v) <==> v == HexValue(c)
  {
    var v := HexValue(c);
    if v < 16 {
      assert c == LOWER[v] || c == UPPER[v];
    }
  }

  /** The number written by hexadecimal digits, the first one the highest. */
  function Hex(d: string): nat {
    if d == "" then 0 else 16 * Hex(d[..|d| - 1]) + HexValue(d[|d| - 1])
  }

  lemma HexStep(d: string, k: nat)
    requires k < |d|
    ensures Hex(d[..k + 1]) == 16 * Hex(d[..k]) + HexValue(d[k])
  {
    assert d[..k + 1][..k] == d[..k];
  }

  /** The code unit of four digits. */
  lemma CodeIs(d: string)
    requires T.IsHex4(d)
    ensures CodeAt(d, 0) == Hex(d)
  {
    hide Hex, HexValue;
    HexStep(d, 0);
    HexStep(d, 1);
    HexStep(d, 2);
    HexStep(d, 3);
    assert d[..4] == d && Hex(d[..0]) == 0 by { NoDigits(d); }
  }

  lemma NoDigits(d: string)
    requires |d| == 4
    ensures d[..4] == d && Hex(d[..0]) == 0
  {
  }

  // ----- short escapes -----

  /** Section 7 of RFC 8259: backspace, form feed, line feed, carriage return and tab; the others stand for themselves. */
  lemma ShortIs(c: char)
    requires T.GoodElem(T.Short(c))
    ensures var code := T.ElemBytes(true, T.Short(c))[0] as int;
            code == if c == 'b' then 8 else if c == 'f' then 12 else if c == 'n' then 10 else if c == 'r' then 13
                    else if c == 't' then 9 else c as int
  {
  }

  // ----- UTF-8 -----

  predicate Continues(c: char) { 0x80 <= c as int < 0xC0 }

  /** The code point of a sequence of bytes (section 3 of RFC 3629), or -1. */
  function CodePoint(b: string): int {
    if |b| == 1 && b[0] as int < 0x80 then b[0] as int
    else if |b| == 2 && 0xC0 <= b[0] as int < 0xE0 && Continues(b[1]) then Longer(0x80, (b[0] as int - 0xC0) * 64 + Six(b[1]))
    else if |b| == 3 && 0xE0 <= b[0] as int < 0xF0 && Continues(b[1]) && Continues(b[2]) then
      Longer(0x800, ((b[0] as int - 0xE0) * 64 + Six(b[1])) * 64 + Six(b[2]))
    else if |b| == 4 && 0xF0 <= b[0] as int < 0xF8 && Continues(b[1]) && Continues(b[2]) && Continues(b[3]) then
      Longer(0x10000, (((b[0] as int - 0xF0) * 64 + Six(b[1])) * 64 + Six(b[2])) * 64 + Six(b[3]))
    else -1
  }

  function Six(c: char): int { c as int - 0x80 }

  /** No code point may be written longer than it has to be. */
  function Longer(least: int, u: int): int { if u < least then -1 else u }

  /** What the parser writes for a code point is read as that one. */
  lemma Utf8Is(u: nat)
    requires u < 0x110000
    ensures CodePoint(Utf8(u)) == u
  {
    T.SixBits(u);
    T.SixBits(u / 64);
    T.SixBits(u / 4096);
  }
}
