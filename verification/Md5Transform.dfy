/**
 The MD5 block transform of src/hash.c, written out step by step as there, against RFC 1321
 section 3.4, which gives the same 64 steps by their number.
 */
module Md5Transform {

  type Byte = bv8
  type Word = bv32

  datatype State = State(a: Word, b: Word, c: Word, d: Word)

  /** Addition of words, which wraps. */
  function Plus(a: Word, b: Word): Word { a + b }

  lemma PlusLaws(a: Word, b: Word, c: Word)
    ensures Plus(Plus(a, b), c) == Plus(a, Plus(b, c)) && Plus(a, b) == Plus(b, a)
  {
  }

  function F(x: Word, y: Word, z: Word): Word { (x & y) | (!x & z) }

  function G(x: Word, y: Word, z: Word): Word { (x & z) | (y & !z) }

  function H(x: Word, y: Word, z: Word): Word { x ^ y ^ z }

  function I(x: Word, y: Word, z: Word): Word { y ^ (x | !z) }

  function RotateLeft(x: Word, n: nat): Word
    requires n <= 32
  {
    (x << n) | (x >> (32 - n))
  }

  // ----- the algorithm of RFC 1321 -----

  /** The auxiliary function of step `i`, counted from 0. */
  function Mix(i: nat, x: Word, y: Word, z: Word): Word {
    if i < 16 then F(x, y, z) else if i < 32 then G(x, y, z) else if i < 48 then H(x, y, z) else I(x, y, z)
  }

  /** Which word of the block step `i` takes. */
  function Pick(i: nat): (k: nat)
    ensures k < 16
  {
    if i < 16 then i % 16 else if i < 32 then (5 * i + 1) % 16 else if i < 48 then (3 * i + 5) % 16 else 7 * i % 16
  }

  /** How far step `i` rotates. */
  function Shift(i: nat): (n: nat)
    ensures n <= 32
  {
    if i < 16 then OneOf(i % 4, 7, 12, 17, 22)
    else if i < 32 then OneOf(i % 4, 5, 9, 14, 20)
    else if i < 48 then OneOf(i % 4, 4, 11, 16, 23)
    else OneOf(i % 4, 6, 10, 15, 21)
  }

  function OneOf(k: nat, a: nat, b: nat, c: nat, d: nat): nat {
    if k == 0 then a else if k == 1 then b else if k == 2 then c else d
  }

  /** The table of step constants, by round. */
  function T(i: nat): Word {
    if i < 16 then T1(i) else if i < 32 then T2(i) else if i < 48 then T3(i) else T4(i)
  }

  function T1(i: nat): Word {
    match i
    case 0 => 0xd76aa478
    case 1 => 0xe8c7b756
    case 2 => 0x242070db
    case 3 => 0xc1bdceee
    case 4 => 0xf57c0faf
    case 5 => 0x4787c62a
    case 6 => 0xa8304613
    case 7 => 0xfd469501
    case 8 => 0x698098d8
    case 9 => 0x8b44f7af
    case 10 => 0xffff5bb1
    case 11 => 0x895cd7be
    case 12 => 0x6b901122
    case 13 => 0xfd987193
    case 14 => 0xa679438e
    case 15 => 0x49b40821
    case _ => 0
  }

  function T2(i: nat): Word {
    match i
    case 16 => 0xf61e2562
    case 17 => 0xc040b340
    case 18 => 0x265e5a51
    case 19 => 0xe9b6c7aa
    case 20 => 0xd62f105d
    case 21 => 0x2441453
    case 22 => 0xd8a1e681
    case 23 => 0xe7d3fbc8
    case 24 => 0x21e1cde6
    case 25 => 0xc33707d6
    case 26 => 0xf4d50d87
    case 27 => 0x455a14ed
    case 28 => 0xa9e3e905
    case 29 => 0xfcefa3f8
    case 30 => 0x676f02d9
    case 31 => 0x8d2a4c8a
    case _ => 0
  }

  function T3(i: nat): Word {
    match i
    case 32 => 0xfffa3942
    case 33 => 0x8771f681
    case 34 => 0x6d9d6122
    case 35 => 0xfde5380c
    case 36 => 0xa4beea44
    case 37 => 0x4bdecfa9
    case 38 => 0xf6bb4b60
    case 39 => 0xbebfbc70
    case 40 => 0x289b7ec6
    case 41 => 0xeaa127fa
    case 42 => 0xd4ef3085
    case 43 => 0x4881d05
    case 44 => 0xd9d4d039
    case 45 => 0xe6db99e5
    case 46 => 0x1fa27cf8
    case 47 => 0xc4ac5665
    case _ => 0
  }

  function T4(i: nat): Word {
    match i
    case 48 => 0xf4292244
    case 49 => 0x432aff97
    case 50 => 0xab9423a7
    case 51 => 0xfc93a039
    case 52 => 0x655b59c3
    case 53 => 0x8f0ccc92
    case 54 => 0xffeff47d
    case 55 => 0x85845dd1
    case 56 => 0x6fa87e4f
    case 57 => 0xfe2ce6e0
    case 58 => 0xa3014314
    case 59 => 0x4e0811a1
    case 60 => 0xf7537e82
    case 61 => 0xbd3af235
    case 62 => 0x2ad7d2bb
    case 63 => 0xeb86d391
    case _ => 0
  }

  /** Step `i`: one word is replaced, and the words change places. */
  function Step(i: nat, s: State, x: seq<Word>): State
    requires |x| == 16
  {
    var sum := Plus(Plus(Plus(s.a, Mix(i, s.b, s.c, s.d)), x[Pick(i)]), T(i));
    State(s.d, Plus(s.b, RotateLeft(sum, Shift(i))), s.b, s.c)
  }

  /** Steps `i` up to `n`. */
  function Steps(i: nat, n: nat, s: State, x: seq<Word>): State
    requires |x| == 16 && i <= n
    decreases n - i
  {
    if i == n then s else Steps(i + 1, n, Step(i, s, x), x)
  }

  function Added(s: State, t: State): State { State(Plus(s.a, t.a), Plus(s.b, t.b), Plus(s.c, t.c), Plus(s.d, t.d)) }

  function Transform(s: State, block: seq<Byte>): State
    requires |block| == 64
  {
    Added(s, Steps(0, 64, s, Decoded(block)))
  }

  // ----- words and bytes, low-order byte first -----

  function ByteOf(w: Word, n: nat): Byte
    requires n <= 24
  {
    ((w >> n) & 0xFF) as Byte
  }

  function WordOf(a: Byte, b: Byte, c: Byte, d: Byte): Word {
    a as Word | (b as Word << 8) | (c as Word << 16) | (d as Word << 24)
  }

  function Encoded(words: seq<Word>): (r: seq<Byte>)
    ensures |r| == 4 * |words|
  {
    if words == [] then []
    else [ByteOf(words[0], 0), ByteOf(words[0], 8), ByteOf(words[0], 16), ByteOf(words[0], 24)] + Encoded(words[1..])
  }

  function Decoded(bytes: seq<Byte>): (r: seq<Word>)
    requires |bytes| % 4 == 0
    ensures |r| == |bytes| / 4
  {
    if bytes == [] then [] else [WordOf(bytes[0], bytes[1], bytes[2], bytes[3])] + Decoded(bytes[4..])
  }

  lemma WordBytes(w: Word)
    ensures WordOf(ByteOf(w, 0), ByteOf(w, 8), ByteOf(w, 16), ByteOf(w, 24)) == w
  {
  }

  /** Decoding what was encoded gives it back. */
  lemma {:induction false} DecodeEncode(words: seq<Word>)
    ensures Decoded(Encoded(words)) == words
  {
    hide ByteOf, WordOf;
    if words != [] {
      DecodeEncode(words[1..]);
      WordBytes(words[0]);
      assert Encoded(words)[4..] == Encoded(words[1..]);
    }
  }
}
