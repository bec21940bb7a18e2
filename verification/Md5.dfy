/**
 The streaming digest of src/hash.c: a context takes a message in pieces, keeps what does not fill
 a block, and counts bits in two words. Whatever the pieces, the digest is that of RFC 1321.
 */
module Md5 {
  import opened Md5Transform
  import Md5Rounds

  /** The largest piece: one more and the loop's `i + 63` could wrap. */
  const LONGEST: nat := 0x1_0000_0000 - 64

  function Start(): State { State(0x67452301, 0xefcdab89, 0x98badcfe, 0x10325476) }

  // ----- the digest of RFC 1321 -----

  /** The transform over whole blocks, one after another. */
  function Blocks(s: State, bytes: seq<Byte>): State
    requires |bytes| % 64 == 0
    decreases |bytes|
  {
    EightMore(|bytes|);
    if bytes == [] then s else Blocks(Transform(s, bytes[..64]), bytes[64..])
  }

  function Zeros(n: nat): (s: seq<Byte>)
    ensures |s| == n && (forall i :: 0 <= i < n ==> s[i] == 0)
  {
    if n == 0 then [] else [0] + Zeros(n - 1)
  }

  /** Section 3.1: a one bit, then zero bits up to 56 bytes mod 64; always at least one byte. */
  function PadLength(n: nat): (p: nat)
    ensures 1 <= p <= 64 && (n + p) % 64 == 56
  {
    if n % 64 < 56 then 56 - n % 64 else 120 - n % 64
  }

  function Padding(p: nat): (s: seq<Byte>)
    requires p >= 1
    ensures |s| == p
  {
    [0x80] + Zeros(p - 1)
  }

  /** Section 3.2: the number of bits mod 2^64 as two words, the low-order one first. */
  function Low(n: nat): Word { ToWord(CountLow(n)) }

  function High(n: nat): Word { ToWord(CountHigh(n)) }

  function ToWord(x: nat): Word
    requires x < 0x1_0000_0000
  {
    x as Word
  }

  /** The two counting words of `n` bytes. */
  function CountLow(n: nat): (r: nat)
    ensures r < 0x1_0000_0000
  {
    8 * n % 0x1_0000_0000
  }

  function CountHigh(n: nat): (r: nat)
    ensures r < 0x1_0000_0000
  {
    8 * n / 0x1_0000_0000 % 0x1_0000_0000
  }

  function Padded(message: seq<Byte>): seq<Byte> {
    message + Padding(PadLength(|message|)) + LengthBytes(|message|)
  }

  function LengthBytes(n: nat): (r: seq<Byte>)
    ensures |r| == 8
  {
    Encoded([Low(n), High(n)])
  }

  lemma PaddedWhole(message: seq<Byte>)
    ensures |Padded(message)| % 64 == 0
  {
    hide Padding, LengthBytes, PadLength;
    EightMore(|message| + PadLength(|message|));
  }

  lemma EightMore(k: nat)
    ensures k % 64 == 56 ==> (k + 8) % 64 == 0
    ensures k >= 64 && k % 64 == 0 ==> (k - 64) % 64 == 0
  {
  }

  function Words(s: State): seq<Word> { [s.a, s.b, s.c, s.d] }

  /** Sections 3.3 to 3.5. */
  function Digest(message: seq<Byte>): (d: seq<Byte>)
    ensures |d| == 16
  {
    PaddedWhole(message);
    Encoded(Words(Blocks(Start(), Padded(message))))
  }

  lemma {:induction false} BlocksAppend(s: State, a: seq<Byte>, b: seq<Byte>)
    requires |a| % 64 == 0 && |b| % 64 == 0
    ensures Blocks(s, a + b) == Blocks(Blocks(s, a), b)
    decreases |a|
  {
    hide Transform;
    if a == [] {
      assert a + b == b;
    } else {
      assert (a + b)[..64] == a[..64] && (a + b)[64..] == a[64..] + b;
      BlocksAppend(Transform(s, a[..64]), a[64..], b);
    }
  }

  lemma OneBlock(s: State, a: seq<Byte>)
    requires |a| == 64
    ensures Blocks(s, a) == Transform(s, a)
  {
    assert a[..64] == a && a[64..] == [];
  }

  /** The whole blocks of a message, and the rest. */
  function Whole(message: seq<Byte>): seq<Byte> { message[..|message| - |message| % 64] }

  function Rest(message: seq<Byte>): seq<Byte> { message[|message| - |message| % 64..] }

  // ----- the context -----

  /** Encode */
  method Encode(output: array<Byte>, input: seq<Word>)
    requires output.Length >= 4 * |input|
    modifies output
    ensures output[..4 * |input|] == Encoded(input)
  {
    hide Encoded, ByteOf;
    EncodedNone();
    var i, j := 0, 0;
    while j < 4 * |input|
      invariant j == 4 * i && i <= |input|
      invariant output[..j] == Encoded(input[..i])
    {
      EncodedNext(input, i);
      output[j] := ByteOf(input[i], 0);
      output[j + 1] := ByteOf(input[i], 8);
      output[j + 2] := ByteOf(input[i], 16);
      output[j + 3] := ByteOf(input[i], 24);
      i, j := i + 1, j + 4;
    }
    assert input[..i] == input;
  }

  lemma EncodedNone()
    ensures Encoded([]) == []
  {
  }

  lemma EncodedNext(words: seq<Word>, i: nat)
    requires i < |words|
    ensures var w := words[i];
            Encoded(words[..i + 1]) == Encoded(words[..i]) + [ByteOf(w, 0), ByteOf(w, 8), ByteOf(w, 16), ByteOf(w, 24)]
  {
    hide ByteOf;
    EncodedAppend(words[..i], [words[i]]);
    assert words[..i + 1] == words[..i] + [words[i]] && [words[i]][1..] == [];
    EncodedNone();
  }

  lemma {:induction false} EncodedAppend(a: seq<Word>, b: seq<Word>)
    ensures Encoded(a + b) == Encoded(a) + Encoded(b)
    decreases |a|
  {
    hide ByteOf;
    if a == [] {
      assert a + b == b;
    } else {
      assert (a + b)[1..] == a[1..] + b;
      EncodedAppend(a[1..], b);
    }
  }

  /** Decode, of one block. */
  method Decode(input: seq<Byte>) returns (output: seq<Word>)
    requires |input| == 64
    ensures output == Decoded(input)
  {
    var j := 0;
    output := [];
    while j < 64
      invariant j % 4 == 0 && j <= 64 && output + Decoded(input[j..]) == Decoded(input)
    {
      assert input[j..][4..] == input[j + 4..];
      output := output + [WordOf(input[j], input[j + 1], input[j + 2], input[j + 3])];
      j := j + 4;
    }
  }

  /** MD5Transform */
  method TransformBlock(s: State, block: seq<Byte>) returns (t: State)
    requires |block| == 64
    ensures t == Transform(s, block)
  {
    hide Step;
    var x := Decode(block);
    var r1 := Md5Rounds.Round1(s, x);
    var r2 := Md5Rounds.Round2(r1, x);
    var r3 := Md5Rounds.Round3(r2, x);
    var r4 := Md5Rounds.Round4(r3, x);
    StepsSplit(0, 16, 64, s, x);
    StepsSplit(16, 32, 64, r1, x);
    StepsSplit(32, 48, 64, r2, x);
    t := Added(s, r4);
  }

  lemma {:induction false} StepsSplit(i: nat, k: nat, n: nat, s: State, x: seq<Word>)
    requires |x| == 16 && i <= k <= n
    ensures Steps(i, n, s, x) == Steps(k, n, Steps(i, k, s, x), x)
    decreases k - i
  {
    hide Step;
    if i < k {
      StepsSplit(i + 1, k, n, Step(i, s, x), x);
    }
  }

  /** A message is cut into whole blocks and a rest in one way. */
  lemma CutAt(message: seq<Byte>, k: nat)
    requires k <= |message| < k + 64 && k % 64 == 0
    ensures Whole(message) == message[..k] && Rest(message) == message[k..] && |message| % 64 == |message| - k
  {
  }

  lemma WholeBlocks(message: seq<Byte>)
    ensures |Whole(message)| % 64 == 0 && |Rest(message)| == |message| % 64 && Whole(message) + Rest(message) == message
  {
  }

  /** Adding `len` bytes to the count, with the carry found by comparison. */
  lemma CountStep(n: nat, len: nat)
    requires len < 0x1_0000_0000
    ensures var add := 8 * len % 0x1_0000_0000;
            var low := (CountLow(n) + add) % 0x1_0000_0000;
            && low == CountLow(n + len)
            && (CountHigh(n) + (if low < add then 1 else 0) + len / 0x2000_0000) % 0x1_0000_0000 == CountHigh(n + len)
  {
    var w := 0x1_0000_0000;
    var lo, q := 8 * n % w, 8 * n / w;
    var add, r := 8 * len % w, len / 0x2000_0000;
    assert 8 * len == w * r + add;
    var carry := if lo + add >= w then 1 else 0;
    var low := lo + add - w * carry;
    assert 8 * (n + len) == w * (q + r + carry) + low;
    Quotient(8 * (n + len), q + r + carry, low);
    Quotient(lo + add, carry, low);
    ModAdd(q, r + carry);
  }

  lemma Quotient(x: int, q: int, r: int)
    requires x == 0x1_0000_0000 * q + r && 0 <= r < 0x1_0000_0000
    ensures x / 0x1_0000_0000 == q && x % 0x1_0000_0000 == r
  {
  }

  lemma ModAdd(q: int, r: int)
    ensures (q % 0x1_0000_0000 + r) % 0x1_0000_0000 == (q + r) % 0x1_0000_0000
  {
    var k := q / 0x1_0000_0000;
    assert q == 0x1_0000_0000 * k + q % 0x1_0000_0000;
    var d := (q % 0x1_0000_0000 + r) / 0x1_0000_0000;
    var e := (q % 0x1_0000_0000 + r) % 0x1_0000_0000;
    Quotient(q + r, k + d, e);
  }

  /** The place in the buffer, from the low counting word. */
  lemma IndexIs(n: nat)
    ensures CountLow(n) / 8 % 64 == n % 64
  {
    var k := 8 * n / 0x1_0000_0000;
    assert 8 * n == 0x1_0000_0000 * k + CountLow(n);
    assert n == 0x2000_0000 * k + CountLow(n) / 8;
  }

  /** The PADDING table of the source: as much of it as is asked for is a padding. */
  lemma PaddingTable(p: nat)
    requires 1 <= p <= 64
    ensures Padding(64)[..p] == Padding(p)
  {
  }

  class Context {
    var state: State
    var count0: nat
    var count1: nat
    const buffer: array<Byte>
    /** All that has been taken so far. */
    ghost var message: seq<Byte>

    /** The blocks are in the state, the rest is in the buffer, and the words count the bits. */
    ghost predicate Valid()
      reads this, buffer
    {
      && buffer.Length == 64
      && count0 == CountLow(|message|) && count1 == CountHigh(|message|)
      && |Whole(message)| % 64 == 0 && state == Blocks(Start(), Whole(message))
      && |Rest(message)| < 64 && buffer[..|Rest(message)|] == Rest(message)
    }

    /** hash_md5_init */
    constructor ()
      ensures Valid() && message == [] && fresh(buffer)
    {
      count0, count1 := 0, 0;
      state := Start();
      buffer := new Byte[64];
      message := [];
    }

    /** MD5_memcpy into the buffer. */
    method Copy(at: nat, bytes: seq<Byte>)
      requires buffer.Length == 64 && at + |bytes| <= 64
      modifies buffer
      ensures buffer[..at + |bytes|] == old(buffer[..at]) + bytes
    {
      forall k | 0 <= k < |bytes| {
        buffer[at + k] := bytes[k];
      }
    }

    /** The counting of hash_md5_update. */
    method Count(len: nat)
      requires len < 0x1_0000_0000 && count0 == CountLow(|message|) && count1 == CountHigh(|message|)
      modifies this`count0, this`count1
      ensures count0 == CountLow(|message| + len) && count1 == CountHigh(|message| + len)
    {
      hide CountLow, CountHigh;
      CountStep(|message|, len);
      var add := 8 * len % 0x1_0000_0000;
      count0 := (count0 + add) % 0x1_0000_0000;
      if count0 < add {
        count1 := (count1 + 1) % 0x1_0000_0000;
      }
      ModAdd(CountHigh(|message|) + 1, len / 0x2000_0000);
      count1 := (count1 + len / 0x2000_0000) % 0x1_0000_0000;
    }

    /** The transforms of hash_md5_update: the buffer is filled up, and blocks taken off the input. */
    method TakeBlocks(input: seq<Byte>, partLen: nat) returns (i: nat)
      requires buffer.Length == 64 && |input| <= LONGEST
      requires partLen == 64 - |message| % 64 <= |input| && buffer[..|message| % 64] == Rest(message)
      requires |Whole(message)| % 64 == 0 && state == Blocks(Start(), Whole(message))
      modifies this`state, buffer
      ensures i <= |input| < i + 64 && (|message| + i) % 64 == 0
      ensures |message + input[..i]| % 64 == 0 && state == Blocks(Start(), message + input[..i])
    {
      hide Transform, Blocks;
      WholeBlocks(message);
      Copy(64 - partLen, input[..partLen]);
      assert Whole(message) + buffer[..] == message + input[..partLen];
      state := Extend(Whole(message), buffer[..]);
      i := partLen;
      Aligned(|message|);
      while i + 63 < |input|
        invariant partLen <= i <= |input| && (|message| + i) % 64 == 0
        invariant state == Blocks(Start(), message + input[..i])
      {
        assert message + input[..i] + input[i..i + 64] == message + input[..i + 64];
        NextBlock(|message| + i);
        state := Extend(message + input[..i], input[i..i + 64]);
        i := i + 64;
      }
    }

    /** One more block. */
    method Extend(ghost done: seq<Byte>, block: seq<Byte>) returns (s: State)
      requires |done| % 64 == 0 && |block| == 64 && state == Blocks(Start(), done)
      ensures |done + block| % 64 == 0 && s == Blocks(Start(), done + block)
    {
      hide Transform, Blocks;
      NextBlock(|done|);
      BlocksAppend(Start(), done, block);
      OneBlock(state, block);
      s := TransformBlock(state, block);
    }

    lemma NextBlock(n: nat)
      ensures n % 64 == 0 ==> (n + 64) % 64 == 0
    {
    }

    lemma Aligned(n: nat)
      ensures (n + (64 - n % 64)) % 64 == 0
    {
    }

    /** The place in the buffer. */
    method Index() returns (index: nat)
      requires Valid()
      ensures index == |message| % 64 && buffer.Length == 64
    {
      hide Blocks, CountLow;
      IndexIs(|message|);
      index := count0 / 8 % 64;
    }

    /** hash_md5_update */
    method Update(input: seq<Byte>)
      requires Valid() && |input| <= LONGEST
      modifies this, buffer
      ensures Valid() && message == old(message) + input
    {
      hide Transform, Blocks, CountLow, CountHigh, Whole, Rest;
      WholeBlocks(message);
      var index := Index();
      Count(|input|);
      var partLen := 64 - index;
      var i := 0;
      ghost var now := message + input;
      if |input| >= partLen {
        i := TakeBlocks(input, partLen);
        CutAt(now, |message| + i);
        assert now[..|message| + i] == message + input[..i] && now[|message| + i..] == input[i..];
        index := 0;
      } else {
        CutAt(now, |Whole(message)|);
        assert now[..|Whole(message)|] == Whole(message) && now[|Whole(message)|..] == Rest(message) + input;
      }
      Copy(index, input[i..]);
      message := now;
    }

    /** The bit count as bytes, as hash_md5_final saves it. */
    method SaveCount() returns (bits: seq<Byte>)
      requires Valid()
      ensures bits == LengthBytes(|message|)
    {
      hide Encoded, ToWord, CountLow, CountHigh, Blocks;
      var a := new Byte[8];
      Encode(a, [ToWord(count0), ToWord(count1)]);
      bits := a[..];
    }

    /** MD5_memset over the whole context. */
    method Zeroize()
      requires buffer.Length == 64
      modifies this`state, this`count0, this`count1, buffer
      ensures state == State(0, 0, 0, 0) && count0 == count1 == 0 && (forall k :: 0 <= k < 64 ==> buffer[k] == 0)
    {
      state, count0, count1 := State(0, 0, 0, 0), 0, 0;
      forall k | 0 <= k < 64 {
        buffer[k] := 0;
      }
    }

    /** hash_md5_final */
    method Final(digest: array<Byte>)
      requires Valid() && digest != buffer && digest.Length == 16
      modifies this, buffer, digest
      ensures digest[..] == Digest(old(message))
      ensures state == State(0, 0, 0, 0) && count0 == count1 == 0 && (forall k :: 0 <= k < 64 ==> buffer[k] == 0)
    {
      hide Valid, Blocks, Digest, Encoded, Padding, LengthBytes;
      ghost var m := message;
      var bits := SaveCount();
      var index := Index();
      var padLen := if index < 56 then 56 - index else 120 - index;
      PaddingTable(padLen);
      Update(Padding(64)[..padLen]);
      Update(bits);
      Finished(m);
      Encode(digest, Words(state));
      assert digest[..] == digest[..16];
      Zeroize();
    }

    /** The state after the whole padded message. */
    lemma Finished(m: seq<Byte>)
      requires Valid() && message == m + Padding(PadLength(|m|)) + LengthBytes(|m|)
      ensures buffer.Length == 64 && Encoded(Words(state)) == Digest(m)
    {
      hide Blocks, Encoded, Padding, PadLength, LengthBytes;
      PaddedWhole(m);
      CutAt(message, |message|);
      assert message[..|message|] == message;
    }
  }

  function Concat(pieces: seq<seq<Byte>>): seq<Byte> {
    if pieces == [] then [] else pieces[0] + Concat(pieces[1..])
  }

  /** hash_md5_file, with the pieces its reads return: the digest depends on what is read, not on how it is cut. */
  method HashPieces(pieces: seq<seq<Byte>>, digest: array<Byte>)
    requires digest.Length == 16 && (forall i :: 0 <= i < |pieces| ==> |pieces[i]| <= LONGEST)
    modifies digest
    ensures digest[..] == Digest(Concat(pieces))
  {
    hide Context.Valid, Digest;
    var context := new Context();
    var i := 0;
    while i < |pieces|
      invariant i <= |pieces| && context.Valid() && fresh(context) && fresh(context.buffer)
      invariant context.message + Concat(pieces[i..]) == Concat(pieces)
    {
      assert pieces[i..][1..] == pieces[i + 1..];
      context.Update(pieces[i]);
      i := i + 1;
    }
    assert pieces[i..] == [] && context.message + [] == context.message;
    context.Final(digest);
  }
}
