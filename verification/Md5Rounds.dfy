/**
 MD5Transform of src/hash.c with its 64 steps written out: the four words keep their places and
 the arguments change theirs.
 */
module Md5Rounds {
  import opened Md5Transform

  function FF(a: Word, b: Word, c: Word, d: Word, x: Word, s: nat, ac: Word): Word
    requires s <= 32
  {
    Plus(RotateLeft(Plus(a, Plus(Plus(F(b, c, d), x), ac)), s), b)
  }

  function GG(a: Word, b: Word, c: Word, d: Word, x: Word, s: nat, ac: Word): Word
    requires s <= 32
  {
    Plus(RotateLeft(Plus(a, Plus(Plus(G(b, c, d), x), ac)), s), b)
  }

  function HH(a: Word, b: Word, c: Word, d: Word, x: Word, s: nat, ac: Word): Word
    requires s <= 32
  {
    Plus(RotateLeft(Plus(a, Plus(Plus(H(b, c, d), x), ac)), s), b)
  }

  function II(a: Word, b: Word, c: Word, d: Word, x: Word, s: nat, ac: Word): Word
    requires s <= 32
  {
    Plus(RotateLeft(Plus(a, Plus(Plus(I(b, c, d), x), ac)), s), b)
  }

  lemma Regroup(a: Word, f: Word, x: Word, t: Word)
    ensures Plus(a, Plus(Plus(f, x), t)) == Plus(Plus(Plus(a, f), x), t)
  {
    hide Plus;
    PlusLaws(a, f, x);
    PlusLaws(a, Plus(f, x), t);
  }

  lemma StepFF(i: nat, s: State, x: seq<Word>)
    requires |x| == 16 && 0 <= i < 16
    ensures Step(i, s, x) == State(s.d, FF(s.a, s.b, s.c, s.d, x[Pick(i)], Shift(i), T(i)), s.b, s.c)
  {
    hide F, G, H, I, RotateLeft, T, Pick, Shift, Plus;
    Regroup(s.a, Mix(i, s.b, s.c, s.d), x[Pick(i)], T(i));
    PlusLaws(s.b, RotateLeft(Plus(Plus(Plus(s.a, Mix(i, s.b, s.c, s.d)), x[Pick(i)]), T(i)), Shift(i)), 0);
  }

  lemma StepGG(i: nat, s: State, x: seq<Word>)
    requires |x| == 16 && 16 <= i < 32
    ensures Step(i, s, x) == State(s.d, GG(s.a, s.b, s.c, s.d, x[Pick(i)], Shift(i), T(i)), s.b, s.c)
  {
    hide F, G, H, I, RotateLeft, T, Pick, Shift, Plus;
    Regroup(s.a, Mix(i, s.b, s.c, s.d), x[Pick(i)], T(i));
    PlusLaws(s.b, RotateLeft(Plus(Plus(Plus(s.a, Mix(i, s.b, s.c, s.d)), x[Pick(i)]), T(i)), Shift(i)), 0);
  }

  lemma StepHH(i: nat, s: State, x: seq<Word>)
    requires |x| == 16 && 32 <= i < 48
    ensures Step(i, s, x) == State(s.d, HH(s.a, s.b, s.c, s.d, x[Pick(i)], Shift(i), T(i)), s.b, s.c)
  {
    hide F, G, H, I, RotateLeft, T, Pick, Shift, Plus;
    Regroup(s.a, Mix(i, s.b, s.c, s.d), x[Pick(i)], T(i));
    PlusLaws(s.b, RotateLeft(Plus(Plus(Plus(s.a, Mix(i, s.b, s.c, s.d)), x[Pick(i)]), T(i)), Shift(i)), 0);
  }

  lemma StepII(i: nat, s: State, x: seq<Word>)
    requires |x| == 16 && 48 <= i < 64
    ensures Step(i, s, x) == State(s.d, II(s.a, s.b, s.c, s.d, x[Pick(i)], Shift(i), T(i)), s.b, s.c)
  {
    hide F, G, H, I, RotateLeft, T, Pick, Shift, Plus;
    Regroup(s.a, Mix(i, s.b, s.c, s.d), x[Pick(i)], T(i));
    PlusLaws(s.b, RotateLeft(Plus(Plus(Plus(s.a, Mix(i, s.b, s.c, s.d)), x[Pick(i)]), T(i)), Shift(i)), 0);
  }

  lemma FourSteps(i: nat, n: nat, s: State, x: seq<Word>)
    requires |x| == 16 && i + 4 <= n
    ensures Steps(i, n, s, x) == Steps(i + 4, n, Step(i + 3, Step(i + 2, Step(i + 1, Step(i, s, x), x), x), x), x)
  {
    hide Step;
    var s1 := Step(i, s, x);
    var s2 := Step(i + 1, s1, x);
    assert Steps(i, n, s, x) == Steps(i + 1, n, s1, x) == Steps(i + 2, n, s2, x);
    var s3 := Step(i + 2, s2, x);
    assert Steps(i + 2, n, s2, x) == Steps(i + 3, n, s3, x) == Steps(i + 4, n, Step(i + 3, s3, x), x);
  }

  /** What the first steps of round 1 take, rotate by and add. */
  lemma Table1()
    ensures Pick(0) == 0 && Pick(1) == 1 && Pick(2) == 2 && Pick(3) == 3
    ensures Shift(0) == 7 && Shift(1) == 12 && Shift(2) == 17 && Shift(3) == 22
    ensures T(0) == 0xd76aa478 && T(1) == 0xe8c7b756 && T(2) == 0x242070db && T(3) == 0xc1bdceee
    ensures Pick(4) == 4 && Pick(5) == 5 && Pick(6) == 6 && Pick(7) == 7
    ensures Shift(4) == 7 && Shift(5) == 12 && Shift(6) == 17 && Shift(7) == 22
    ensures T(4) == 0xf57c0faf && T(5) == 0x4787c62a && T(6) == 0xa8304613 && T(7) == 0xfd469501
  {
  }

  lemma Table1Rest()
    ensures Pick(8) == 8 && Pick(9) == 9 && Pick(10) == 10 && Pick(11) == 11
    ensures Shift(8) == 7 && Shift(9) == 12 && Shift(10) == 17 && Shift(11) == 22
    ensures T(8) == 0x698098d8 && T(9) == 0x8b44f7af && T(10) == 0xffff5bb1 && T(11) == 0x895cd7be
    ensures Pick(12) == 12 && Pick(13) == 13 && Pick(14) == 14 && Pick(15) == 15
    ensures Shift(12) == 7 && Shift(13) == 12 && Shift(14) == 17 && Shift(15) == 22
    ensures T(12) == 0x6b901122 && T(13) == 0xfd987193 && T(14) == 0xa679438e && T(15) == 0x49b40821
  {
  }

  method Round1(s: State, x: seq<Word>) returns (t: State)
    requires |x| == 16
    ensures t == Steps(0, 16, s, x)
  {
    hide Step, FF, T, Pick, Shift;
    Table1();
    Table1Rest();
    var a, b, c, d := s.a, s.b, s.c, s.d;
    ghost var g := s;
    a := FF(a, b, c, d, x[0], 7, 0xd76aa478);
    d := FF(d, a, b, c, x[1], 12, 0xe8c7b756);
    c := FF(c, d, a, b, x[2], 17, 0x242070db);
    b := FF(b, c, d, a, x[3], 22, 0xc1bdceee);
    g := FourOfFF(0, 16, g, x);
    a := FF(a, b, c, d, x[4], 7, 0xf57c0faf);
    d := FF(d, a, b, c, x[5], 12, 0x4787c62a);
    c := FF(c, d, a, b, x[6], 17, 0xa8304613);
    b := FF(b, c, d, a, x[7], 22, 0xfd469501);
    g := FourOfFF(4, 16, g, x);
    a := FF(a, b, c, d, x[8], 7, 0x698098d8);
    d := FF(d, a, b, c, x[9], 12, 0x8b44f7af);
    c := FF(c, d, a, b, x[10], 17, 0xffff5bb1);
    b := FF(b, c, d, a, x[11], 22, 0x895cd7be);
    g := FourOfFF(8, 16, g, x);
    a := FF(a, b, c, d, x[12], 7, 0x6b901122);
    d := FF(d, a, b, c, x[13], 12, 0xfd987193);
    c := FF(c, d, a, b, x[14], 17, 0xa679438e);
    b := FF(b, c, d, a, x[15], 22, 0x49b40821);
    g := FourOfFF(12, 16, g, x);
    t := State(a, b, c, d);
  }

  ghost method FourOfFF(i: nat, n: nat, s: State, x: seq<Word>) returns (t: State)
    requires |x| == 16 && 0 <= i && i + 4 <= n <= 16
    ensures t == Step(i + 3, Step(i + 2, Step(i + 1, Step(i, s, x), x), x), x)
    ensures Steps(i, n, s, x) == Steps(i + 4, n, t, x)
    ensures t.a == FF(s.a, s.b, s.c, s.d, x[Pick(i)], Shift(i), T(i))
    ensures t.d == FF(s.d, t.a, s.b, s.c, x[Pick(i + 1)], Shift(i + 1), T(i + 1))
    ensures t.c == FF(s.c, t.d, t.a, s.b, x[Pick(i + 2)], Shift(i + 2), T(i + 2))
    ensures t.b == FF(s.b, t.c, t.d, t.a, x[Pick(i + 3)], Shift(i + 3), T(i + 3))
  {
    hide Step, Steps, FF, T, Pick, Shift;
    FourSteps(i, n, s, x);
    var s1 := Step(i, s, x);
    var s2 := Step(i + 1, s1, x);
    var s3 := Step(i + 2, s2, x);
    t := Step(i + 3, s3, x);
    StepFF(i, s, x);
    StepFF(i + 1, s1, x);
    StepFF(i + 2, s2, x);
    StepFF(i + 3, s3, x);
  }

  /** What the first steps of round 2 take, rotate by and add. */
  lemma Table2()
    ensures Pick(16) == 1 && Pick(17) == 6 && Pick(18) == 11 && Pick(19) == 0
    ensures Shift(16) == 5 && Shift(17) == 9 && Shift(18) == 14 && Shift(19) == 20
    ensures T(16) == 0xf61e2562 && T(17) == 0xc040b340 && T(18) == 0x265e5a51 && T(19) == 0xe9b6c7aa
    ensures Pick(20) == 5 && Pick(21) == 10 && Pick(22) == 15 && Pick(23) == 4
    ensures Shift(20) == 5 && Shift(21) == 9 && Shift(22) == 14 && Shift(23) == 20
    ensures T(20) == 0xd62f105d && T(21) == 0x2441453 && T(22) == 0xd8a1e681 && T(23) == 0xe7d3fbc8
  {
  }

  lemma Table2Rest()
    ensures Pick(24) == 9 && Pick(25) == 14 && Pick(26) == 3 && Pick(27) == 8
    ensures Shift(24) == 5 && Shift(25) == 9 && Shift(26) == 14 && Shift(27) == 20
    ensures T(24) == 0x21e1cde6 && T(25) == 0xc33707d6 && T(26) == 0xf4d50d87 && T(27) == 0x455a14ed
    ensures Pick(28) == 13 && Pick(29) == 2 && Pick(30) == 7 && Pick(31) == 12
    ensures Shift(28) == 5 && Shift(29) == 9 && Shift(30) == 14 && Shift(31) == 20
    ensures T(28) == 0xa9e3e905 && T(29) == 0xfcefa3f8 && T(30) == 0x676f02d9 && T(31) == 0x8d2a4c8a
  {
  }

  method Round2(s: State, x: seq<Word>) returns (t: State)
    requires |x| == 16
    ensures t == Steps(16, 32, s, x)
  {
    hide Step, GG, T, Pick, Shift;
    Table2();
    Table2Rest();
    var a, b, c, d := s.a, s.b, s.c, s.d;
    ghost var g := s;
    a := GG(a, b, c, d, x[1], 5, 0xf61e2562);
    d := GG(d, a, b, c, x[6], 9, 0xc040b340);
    c := GG(c, d, a, b, x[11], 14, 0x265e5a51);
    b := GG(b, c, d, a, x[0], 20, 0xe9b6c7aa);
    g := FourOfGG(16, 32, g, x);
    a := GG(a, b, c, d, x[5], 5, 0xd62f105d);
    d := GG(d, a, b, c, x[10], 9, 0x2441453);
    c := GG(c, d, a, b, x[15], 14, 0xd8a1e681);
    b := GG(b, c, d, a, x[4], 20, 0xe7d3fbc8);
    g := FourOfGG(20, 32, g, x);
    a := GG(a, b, c, d, x[9], 5, 0x21e1cde6);
    d := GG(d, a, b, c, x[14], 9, 0xc33707d6);
    c := GG(c, d, a, b, x[3], 14, 0xf4d50d87);
    b := GG(b, c, d, a, x[8], 20, 0x455a14ed);
    g := FourOfGG(24, 32, g, x);
    a := GG(a, b, c, d, x[13], 5, 0xa9e3e905);
    d := GG(d, a, b, c, x[2], 9, 0xfcefa3f8);
    c := GG(c, d, a, b, x[7], 14, 0x676f02d9);
    b := GG(b, c, d, a, x[12], 20, 0x8d2a4c8a);
    g := FourOfGG(28, 32, g, x);
    t := State(a, b, c, d);
  }

  ghost method FourOfGG(i: nat, n: nat, s: State, x: seq<Word>) returns (t: State)
    requires |x| == 16 && 16 <= i && i + 4 <= n <= 32
    ensures t == Step(i + 3, Step(i + 2, Step(i + 1, Step(i, s, x), x), x), x)
    ensures Steps(i, n, s, x) == Steps(i + 4, n, t, x)
    ensures t.a == GG(s.a, s.b, s.c, s.d, x[Pick(i)], Shift(i), T(i))
    ensures t.d == GG(s.d, t.a, s.b, s.c, x[Pick(i + 1)], Shift(i + 1), T(i + 1))
    ensures t.c == GG(s.c, t.d, t.a, s.b, x[Pick(i + 2)], Shift(i + 2), T(i + 2))
    ensures t.b == GG(s.b, t.c, t.d, t.a, x[Pick(i + 3)], Shift(i + 3), T(i + 3))
  {
    hide Step, Steps, GG, T, Pick, Shift;
    FourSteps(i, n, s, x);
    var s1 := Step(i, s, x);
    var s2 := Step(i + 1, s1, x);
    var s3 := Step(i + 2, s2, x);
    t := Step(i + 3, s3, x);
    StepGG(i, s, x);
    StepGG(i + 1, s1, x);
    StepGG(i + 2, s2, x);
    StepGG(i + 3, s3, x);
  }

  /** What the first steps of round 3 take, rotate by and add. */
  lemma Table3()
    ensures Pick(32) == 5 && Pick(33) == 8 && Pick(34) == 11 && Pick(35) == 14
    ensures Shift(32) == 4 && Shift(33) == 11 && Shift(34) == 16 && Shift(35) == 23
    ensures T(32) == 0xfffa3942 && T(33) == 0x8771f681 && T(34) == 0x6d9d6122 && T(35) == 0xfde5380c
    ensures Pick(36) == 1 && Pick(37) == 4 && Pick(38) == 7 && Pick(39) == 10
    ensures Shift(36) == 4 && Shift(37) == 11 && Shift(38) == 16 && Shift(39) == 23
    ensures T(36) == 0xa4beea44 && T(37) == 0x4bdecfa9 && T(38) == 0xf6bb4b60 && T(39) == 0xbebfbc70
  {
  }

  lemma Table3Rest()
    ensures Pick(40) == 13 && Pick(41) == 0 && Pick(42) == 3 && Pick(43) == 6
    ensures Shift(40) == 4 && Shift(41) == 11 && Shift(42) == 16 && Shift(43) == 23
    ensures T(40) == 0x289b7ec6 && T(41) == 0xeaa127fa && T(42) == 0xd4ef3085 && T(43) == 0x4881d05
    ensures Pick(44) == 9 && Pick(45) == 12 && Pick(46) == 15 && Pick(47) == 2
    ensures Shift(44) == 4 && Shift(45) == 11 && Shift(46) == 16 && Shift(47) == 23
    ensures T(44) == 0xd9d4d039 && T(45) == 0xe6db99e5 && T(46) == 0x1fa27cf8 && T(47) == 0xc4ac5665
  {
  }

  method Round3(s: State, x: seq<Word>) returns (t: State)
    requires |x| == 16
    ensures t == Steps(32, 48, s, x)
  {
    hide Step, HH, T, Pick, Shift;
    Table3();
    Table3Rest();
    var a, b, c, d := s.a, s.b, s.c, s.d;
    ghost var g := s;
    a := HH(a, b, c, d, x[5], 4, 0xfffa3942);
    d := HH(d, a, b, c, x[8], 11, 0x8771f681);
    c := HH(c, d, a, b, x[11], 16, 0x6d9d6122);
    b := HH(b, c, d, a, x[14], 23, 0xfde5380c);
    g := FourOfHH(32, 48, g, x);
    a := HH(a, b, c, d, x[1], 4, 0xa4beea44);
    d := HH(d, a, b, c, x[4], 11, 0x4bdecfa9);
    c := HH(c, d, a, b, x[7], 16, 0xf6bb4b60);
    b := HH(b, c, d, a, x[10], 23, 0xbebfbc70);
    g := FourOfHH(36, 48, g, x);
    a := HH(a, b, c, d, x[13], 4, 0x289b7ec6);
    d := HH(d, a, b, c, x[0], 11, 0xeaa127fa);
    c := HH(c, d, a, b, x[3], 16, 0xd4ef3085);
    b := HH(b, c, d, a, x[6], 23, 0x4881d05);
    g := FourOfHH(40, 48, g, x);
    a := HH(a, b, c, d, x[9], 4, 0xd9d4d039);
    d := HH(d, a, b, c, x[12], 11, 0xe6db99e5);
    c := HH(c, d, a, b, x[15], 16, 0x1fa27cf8);
    b := HH(b, c, d, a, x[2], 23, 0xc4ac5665);
    g := FourOfHH(44, 48, g, x);
    t := State(a, b, c, d);
  }

  ghost method FourOfHH(i: nat, n: nat, s: State, x: seq<Word>) returns (t: State)
    requires |x| == 16 && 32 <= i && i + 4 <= n <= 48
    ensures t == Step(i + 3, Step(i + 2, Step(i + 1, Step(i, s, x), x), x), x)
    ensures Steps(i, n, s, x) == Steps(i + 4, n, t, x)
    ensures t.a == HH(s.a, s.b, s.c, s.d, x[Pick(i)], Shift(i), T(i))
    ensures t.d == HH(s.d, t.a, s.b, s.c, x[Pick(i + 1)], Shift(i + 1), T(i + 1))
    ensures t.c == HH(s.c, t.d, t.a, s.b, x[Pick(i + 2)], Shift(i + 2), T(i + 2))
    ensures t.b == HH(s.b, t.c, t.d, t.a, x[Pick(i + 3)], Shift(i + 3), T(i + 3))
  {
    hide Step, Steps, HH, T, Pick, Shift;
    FourSteps(i, n, s, x);
    var s1 := Step(i, s, x);
    var s2 := Step(i + 1, s1, x);
    var s3 := Step(i + 2, s2, x);
    t := Step(i + 3, s3, x);
    StepHH(i, s, x);
    StepHH(i + 1, s1, x);
    StepHH(i + 2, s2, x);
    StepHH(i + 3, s3, x);
  }

  /** What the first steps of round 4 take, rotate by and add. */
  lemma Table4()
    ensures Pick(48) == 0 && Pick(49) == 7 && Pick(50) == 14 && Pick(51) == 5
    ensures Shift(48) == 6 && Shift(49) == 10 && Shift(50) == 15 && Shift(51) == 21
    ensures T(48) == 0xf4292244 && T(49) == 0x432aff97 && T(50) == 0xab9423a7 && T(51) == 0xfc93a039
    ensures Pick(52) == 12 && Pick(53) == 3 && Pick(54) == 10 && Pick(55) == 1
    ensures Shift(52) == 6 && Shift(53) == 10 && Shift(54) == 15 && Shift(55) == 21
    ensures T(52) == 0x655b59c3 && T(53) == 0x8f0ccc92 && T(54) == 0xffeff47d && T(55) == 0x85845dd1
  {
  }

  lemma Table4Rest()
    ensures Pick(56) == 8 && Pick(57) == 15 && Pick(58) == 6 && Pick(59) == 13
    ensures Shift(56) == 6 && Shift(57) == 10 && Shift(58) == 15 && Shift(59) == 21
    ensures T(56) == 0x6fa87e4f && T(57) == 0xfe2ce6e0 && T(58) == 0xa3014314 && T(59) == 0x4e0811a1
    ensures Pick(60) == 4 && Pick(61) == 11 && Pick(62) == 2 && Pick(63) == 9
    ensures Shift(60) == 6 && Shift(61) == 10 && Shift(62) == 15 && Shift(63) == 21
    ensures T(60) == 0xf7537e82 && T(61) == 0xbd3af235 && T(62) == 0x2ad7d2bb && T(63) == 0xeb86d391
  {
  }

  method Round4(s: State, x: seq<Word>) returns (t: State)
    requires |x| == 16
    ensures t == Steps(48, 64, s, x)
  {
    hide Step, II, T, Pick, Shift;
    Table4();
    Table4Rest();
    var a, b, c, d := s.a, s.b, s.c, s.d;
    ghost var g := s;
    a := II(a, b, c, d, x[0], 6, 0xf4292244);
    d := II(d, a, b, c, x[7], 10, 0x432aff97);
    c := II(c, d, a, b, x[14], 15, 0xab9423a7);
    b := II(b, c, d, a, x[5], 21, 0xfc93a039);
    g := FourOfII(48, 64, g, x);
    a := II(a, b, c, d, x[12], 6, 0x655b59c3);
    d := II(d, a, b, c, x[3], 10, 0x8f0ccc92);
    c := II(c, d, a, b, x[10], 15, 0xffeff47d);
    b := II(b, c, d, a, x[1], 21, 0x85845dd1);
    g := FourOfII(52, 64, g, x);
    a := II(a, b, c, d, x[8], 6, 0x6fa87e4f);
    d := II(d, a, b, c, x[15], 10, 0xfe2ce6e0);
    c := II(c, d, a, b, x[6], 15, 0xa3014314);
    b := II(b, c, d, a, x[13], 21, 0x4e0811a1);
    g := FourOfII(56, 64, g, x);
    a := II(a, b, c, d, x[4], 6, 0xf7537e82);
    d := II(d, a, b, c, x[11], 10, 0xbd3af235);
    c := II(c, d, a, b, x[2], 15, 0x2ad7d2bb);
    b := II(b, c, d, a, x[9], 21, 0xeb86d391);
    g := FourOfII(60, 64, g, x);
    t := State(a, b, c, d);
  }

  ghost method FourOfII(i: nat, n: nat, s: State, x: seq<Word>) returns (t: State)
    requires |x| == 16 && 48 <= i && i + 4 <= n <= 64
    ensures t == Step(i + 3, Step(i + 2, Step(i + 1, Step(i, s, x), x), x), x)
    ensures Steps(i, n, s, x) == Steps(i + 4, n, t, x)
    ensures t.a == II(s.a, s.b, s.c, s.d, x[Pick(i)], Shift(i), T(i))
    ensures t.d == II(s.d, t.a, s.b, s.c, x[Pick(i + 1)], Shift(i + 1), T(i + 1))
    ensures t.c == II(s.c, t.d, t.a, s.b, x[Pick(i + 2)], Shift(i + 2), T(i + 2))
    ensures t.b == II(s.b, t.c, t.d, t.a, x[Pick(i + 3)], Shift(i + 3), T(i + 3))
  {
    hide Step, Steps, II, T, Pick, Shift;
    FourSteps(i, n, s, x);
    var s1 := Step(i, s, x);
    var s2 := Step(i + 1, s1, x);
    var s3 := Step(i + 2, s2, x);
    t := Step(i + 3, s3, x);
    StepII(i, s, x);
    StepII(i + 1, s1, x);
    StepII(i + 2, s2, x);
    StepII(i + 3, s3, x);
  }
}
