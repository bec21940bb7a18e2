/** How the passes of src/json.c read a number, digit by digit, with its fraction and exponent. */
module JsonNumbers {
  import opened JsonParser
  import opened JsonReading
  import T = JsonText

  /** The node of a number, as the first pass leaves it. */
  function NumeralNode(n: T.Numeral, parent: int): (node: Node)
    requires T.GoodNumeral(n)
    ensures node.parent == parent && (node.kind == KInteger || node.kind == KDouble)
  {
    if T.IsInteger(n) then FreshNode(KInteger, parent).(integer := Wrap64(T.IntValue(n)))
    else FreshNode(KDouble, parent).(integer := Wrap64(T.Magnitude(n.digits)))
  }

  // ----- 64 bits -----

  lemma WrapAlike(x: int, y: int, q: int)
    requires x == y + 0x1_0000_0000_0000_0000 * q
    ensures Wrap64(x) == Wrap64(y)
  {
    var a := y + 0x8000_0000_0000_0000;
    var r := a % 0x1_0000_0000_0000_0000;
    assert a == 0x1_0000_0000_0000_0000 * (a / 0x1_0000_0000_0000_0000) + r;
    Remainder(a + 0x1_0000_0000_0000_0000 * q, a / 0x1_0000_0000_0000_0000 + q, r);
  }

  lemma Remainder(x: int, q: int, r: int)
    requires x == 0x1_0000_0000_0000_0000 * q + r && 0 <= r < 0x1_0000_0000_0000_0000
    ensures x % 0x1_0000_0000_0000_0000 == r
  {
  }

  lemma WrapOff(x: int) returns (q: int)
    ensures Wrap64(x) == x + 0x1_0000_0000_0000_0000 * q
  {
    q := 0 - (x + 0x8000_0000_0000_0000) / 0x1_0000_0000_0000_0000;
  }

  /** Wrapping at every digit, or at the sign, is wrapping once. */
  lemma WrapOnce(x: int, d: int)
    ensures Wrap64(Wrap64(x) * 10 + d) == Wrap64(x * 10 + d) && Wrap64(-Wrap64(x)) == Wrap64(-x)
  {
    hide Wrap64;
    var q := WrapOff(x);
    WrapAlike(Wrap64(x) * 10 + d, x * 10 + d, q * 10);
    WrapAlike(-Wrap64(x), -x, -q);
  }

  // ----- states inside a number -----

  /** Inside the number at the top of `s`. */
  function NumState(s: State, kind: Kind, m: int, ptr: nat, num: Number): (r: State)
    requires ValidTop(s)
    ensures ValidTop(r) && r.ptr == ptr
  {
    SetTop(s, s.nodes[s.top].(kind := kind, integer := m)).(ptr := ptr, num := num)
  }

  /** A state in which a new node has just been taken for a number. */
  predicate Base(s: State) {
    ValidTop(s) && s.flags == Flags(false, false, false, false, false, false, false, false)
  }

  function IntNum(negative: bool, d: string, j: nat): Number {
    Number(negative, j == 1 && d != "" && d[0] == '0', false, false, false, j, 0)
  }

  function FracNum(negative: bool, zero: bool, j: nat): Number { Number(negative, zero, false, false, false, j, 0) }

  function ExpNum(negative: bool, got: bool, eNegative: bool, d: string, j: nat): Number
    requires T.AllDigits(d) && j <= |d|
  {
    Number(negative, false, true, got || j > 0, eNegative, j, T.Magnitude(d[..j]))
  }

  lemma MagnitudePrefix(d: string, j: nat)
    requires T.AllDigits(d) && j < |d|
    ensures T.Magnitude(d[..j + 1]) == T.Magnitude(d[..j]) * 10 + DigitValue(d[j])
  {
    assert d[..j + 1][..j] == d[..j];
  }

  lemma IntStep(cfg: Config, text: string, s: State, negative: bool, d: string, p: nat, j: nat)
    requires Base(s) && T.AllDigits(d) && j < |d| && Here(text, p, d) && (d[0] == '0' ==> |d| == 1)
    ensures Step(true, cfg, text, NumState(s, KInteger, Wrap64(T.Magnitude(d[..j])), p + j, IntNum(negative, d, j)))
         == Continue(NumState(s, KInteger, Wrap64(T.Magnitude(d[..j + 1])), p + j + 1, IntNum(negative, d, j + 1)))
  {
    hide Finish, Wrap64, T.Magnitude;
    HereAt(text, p, d, j);
    MagnitudePrefix(d, j);
    WrapOnce(T.Magnitude(d[..j]), DigitValue(d[j]));
  }

  lemma {:induction false} ReadInt(cfg: Config, text: string, s: State, negative: bool, d: string, p: nat, j: nat)
    requires Base(s) && T.AllDigits(d) && j <= |d| && Here(text, p, d) && (d != "" && d[0] == '0' ==> |d| == 1)
    ensures Run(true, cfg, text, NumState(s, KInteger, Wrap64(T.Magnitude(d[..j])), p + j, IntNum(negative, d, j)))
         == Run(true, cfg, text, NumState(s, KInteger, Wrap64(T.Magnitude(d)), p + |d|, IntNum(negative, d, |d|)))
    decreases |d| - j
  {
    hide Step, Run, T.Magnitude, Wrap64;
    if j < |d| {
      IntStep(cfg, text, s, negative, d, p, j);
      RunStep(true, cfg, text, NumState(s, KInteger, Wrap64(T.Magnitude(d[..j])), p + j, IntNum(negative, d, j)));
      ReadInt(cfg, text, s, negative, d, p, j + 1);
    } else {
      assert d[..j] == d;
    }
  }

  lemma FracStep(cfg: Config, text: string, s: State, m: int, negative: bool, zero: bool, d: string, p: nat, j: nat)
    requires Base(s) && T.AllDigits(d) && j < |d| && Here(text, p, d)
    ensures Step(true, cfg, text, NumState(s, KDouble, m, p + j, FracNum(negative, zero, j)))
         == Continue(NumState(s, KDouble, m, p + j + 1, FracNum(negative, zero, j + 1)))
  {
    hide Finish, Wrap64;
    HereAt(text, p, d, j);
  }

  lemma {:induction false} ReadFracDigits(cfg: Config, text: string, s: State, m: int, negative: bool, zero: bool, d: string, p: nat, j: nat)
    requires Base(s) && T.AllDigits(d) && j <= |d| && Here(text, p, d)
    ensures Run(true, cfg, text, NumState(s, KDouble, m, p + j, FracNum(negative, zero, j)))
         == Run(true, cfg, text, NumState(s, KDouble, m, p + |d|, FracNum(negative, zero, |d|)))
    decreases |d| - j
  {
    hide Step, Run;
    if j < |d| {
      FracStep(cfg, text, s, m, negative, zero, d, p, j);
      RunStep(true, cfg, text, NumState(s, KDouble, m, p + j, FracNum(negative, zero, j)));
      ReadFracDigits(cfg, text, s, m, negative, zero, d, p, j + 1);
    }
  }

  lemma ExpStep(cfg: Config, text: string, s: State, m: int, negative: bool, got: bool, eNegative: bool, d: string, p: nat, j: nat)
    requires Base(s) && T.AllDigits(d) && j < |d| && Here(text, p, d)
    ensures Step(true, cfg, text, NumState(s, KDouble, m, p + j, ExpNum(negative, got, eNegative, d, j)))
         == Continue(NumState(s, KDouble, m, p + j + 1, ExpNum(negative, got, eNegative, d, j + 1)))
  {
    hide Finish, Wrap64, T.Magnitude;
    HereAt(text, p, d, j);
    MagnitudePrefix(d, j);
  }

  lemma {:induction false} ReadExpDigits(cfg: Config, text: string, s: State, m: int, negative: bool, got: bool, eNegative: bool, d: string, p: nat, j: nat)
    requires Base(s) && T.AllDigits(d) && j <= |d| && Here(text, p, d)
    ensures Run(true, cfg, text, NumState(s, KDouble, m, p + j, ExpNum(negative, got, eNegative, d, j)))
         == Run(true, cfg, text, NumState(s, KDouble, m, p + |d|, ExpNum(negative, got, eNegative, d, |d|)))
    decreases |d| - j
  {
    hide Step, Run, T.Magnitude;
    if j < |d| {
      ExpStep(cfg, text, s, m, negative, got, eNegative, d, p, j);
      RunStep(true, cfg, text, NumState(s, KDouble, m, p + j, ExpNum(negative, got, eNegative, d, j)));
      ReadExpDigits(cfg, text, s, m, negative, got, eNegative, d, p, j + 1);
    }
  }

  // ----- the parts of a number -----

  /** A number that has come to its end does not go on with `c`; a comment is not allowed right behind it. */
  predicate Stops(cfg: Config, c: char) { !IsNumberChar(c) && !(cfg.comments && c == '/') }

  /** The point and the fraction, if there are any. */
  lemma ReadFrac(cfg: Config, text: string, s: State, m: int, negative: bool, zero: bool, k: nat, frac: string, p: nat)
    returns (kind: Kind, k': nat)
    requires Base(s) && T.AllDigits(frac) && k > 0 && Here(text, p, T.FracText(frac))
    ensures kind == (if frac == "" then KInteger else KDouble) && k' == (if frac == "" then k else |frac|) && p + |T.FracText(frac)| <= |text|
    ensures Run(true, cfg, text, NumState(s, KInteger, m, p, FracNum(negative, zero, k)))
         == Run(true, cfg, text, NumState(s, kind, m, p + |T.FracText(frac)|, FracNum(negative, zero, k')))
  {
    hide Run, Finish, Wrap64;
    kind, k' := KInteger, k;
    if frac != "" {
      HereSplit(text, p, ".", frac);
      HereAt(text, p, ".", 0);
      RunStep(true, cfg, text, NumState(s, KInteger, m, p, FracNum(negative, zero, k)));
      assert Step(true, cfg, text, NumState(s, KInteger, m, p, FracNum(negative, zero, k)))
          == Continue(NumState(s, KDouble, m, p + 1, FracNum(negative, zero, 0)));
      ReadFracDigits(cfg, text, s, m, negative, zero, frac, p + 1, 0);
      kind, k' := KDouble, |frac|;
    }
  }

  /** The e, and its sign. */
  lemma ReadMark(cfg: Config, text: string, s: State, kind: Kind, m: int, negative: bool, zero: bool, k: nat, mark: char, sign: string, p: nat)
    requires Base(s) && 0 < k && (kind == KInteger || (kind == KDouble && k <= INT_MAX)) && (mark == 'e' || mark == 'E')
    requires (sign == "" || sign == "+" || sign == "-") && Here(text, p, [mark] + sign)
    ensures Run(true, cfg, text, NumState(s, kind, m, p, FracNum(negative, zero, k)))
         == Run(true, cfg, text, NumState(s, KDouble, m, p + 1 + |sign|, Number(negative, false, true, sign != "", sign == "-", 0, 0)))
  {
    hide Run, Finish, Wrap64;
    HereSplit(text, p, [mark], sign);
    HereAt(text, p, [mark], 0);
    var s0 := NumState(s, kind, m, p, FracNum(negative, zero, k));
    var s1 := NumState(s, KDouble, m, p + 1, Number(negative, false, true, false, false, 0, 0));
    assert Step(true, cfg, text, s0) == Continue(s1);
    RunStep(true, cfg, text, s0);
    if sign != "" {
      HereAt(text, p + 1, sign, 0);
      RunStep(true, cfg, text, s1);
    }
  }

  /** What the parser remembers of a number at its end. */
  function EndNum(n: T.Numeral, zero: bool, k: nat): Number
    requires T.GoodNumeral(n)
  {
    if n.exp.NoExponent? then FracNum(n.negative, zero, k)
    else Number(n.negative, false, true, true, n.exp.sign == "-", |n.exp.digits|, T.Magnitude(n.exp.digits))
  }

  /** What is remembered of an integer or a fraction: how many digits it has, which are not too many. */
  predicate ShortFrac(n: T.Numeral, kind: Kind, k: nat) {
    kind == (if n.frac == "" then KInteger else KDouble) && (n.frac != "" ==> k == |n.frac| <= INT_MAX)
  }

  /** After a fraction that is too long the parser does not come back. */
  lemma LongFrac(cfg: Config, text: string, s: State, m: int, negative: bool, zero: bool, k: nat, p: nat)
    requires Base(s) && k > INT_MAX && p <= |text| && (Stops(cfg, At(text, p)) || At(text, p) == 'e' || At(text, p) == 'E')
    ensures Run(true, cfg, text, NumState(s, KDouble, m, p, FracNum(negative, zero, k))) == Hang
  {
    hide Finish, Wrap64, Run;
    RunStep(true, cfg, text, NumState(s, KDouble, m, p, FracNum(negative, zero, k)));
  }

  lemma ReadExp(cfg: Config, text: string, s: State, kind: Kind, m: int, n: T.Numeral, zero: bool, k: nat, p: nat)
    requires Base(s) && k > 0 && T.GoodNumeral(n) && ShortFrac(n, kind, k)
    requires Here(text, p, T.ExpText(n.exp))
    ensures p + |T.ExpText(n.exp)| <= |text|
    ensures Run(true, cfg, text, NumState(s, kind, m, p, FracNum(n.negative, zero, k)))
         == Run(true, cfg, text, NumState(s, if T.IsInteger(n) then KInteger else KDouble, m, p + |T.ExpText(n.exp)|, EndNum(n, zero, k)))
  {
    hide Run, T.Magnitude;
    if n.exp.Exponent? {
      var e := n.exp;
      assert [e.mark] + (e.sign + e.digits) == ([e.mark] + e.sign) + e.digits;
      HereSplit(text, p, [e.mark] + e.sign, e.digits);
      ReadMark(cfg, text, s, kind, m, n.negative, zero, k, e.mark, e.sign, p);
      var q := p + 1 + |e.sign|;
      assert T.Magnitude("") == 0 by { Nothing(); }
      ReadExpDigits(cfg, text, s, m, n.negative, e.sign != "", e.sign == "-", e.digits, q, 0);
      assert e.digits[..0] == "" && e.digits[..|e.digits|] == e.digits;
    }
  }

  lemma Nothing()
    ensures T.Magnitude("") == 0
  {
  }

  /** The end of a number, where another character follows. */
  lemma EndOfNumber(cfg: Config, text: string, s: State, kind: Kind, m: int, n: T.Numeral, zero: bool, k: nat, p: nat)
    requires Base(s) && k > 0 && T.GoodNumeral(n) && kind == (if T.IsInteger(n) then KInteger else KDouble)
    requires n.frac != "" ==> k == |n.frac| <= INT_MAX
    requires p <= |text| && Stops(cfg, At(text, p))
    ensures var s1 := NumState(s, kind, m, p, EndNum(n, zero, k));
            Step(true, cfg, text, s1) == if T.TameNumeral(n) then Finish(true, Signed(s1)) else Hang
  {
    hide Finish, Wrap64, T.Magnitude;
  }

  // ----- the whole number -----

  /** The new node, and the minus sign. */
  lemma StartNumber(cfg: Config, text: string, s: State, n: T.Numeral) returns (v: State)
    requires s.ptr <= |text| && AtValue(s) && T.GoodNumeral(n) && Here(text, s.ptr, T.NumeralText(n))
    ensures Base(v) && v.nodes == s.nodes + [FreshNode(KInteger, s.top)] && v.top == |s.nodes| && v.alloc == |s.nodes| + 1
    ensures v.flags == s.flags.(seekValue := false)
    ensures var p := s.ptr + |T.Sign(n.negative)|;
            p <= |text| && Run(true, cfg, text, s) == Run(true, cfg, text, NumState(v, KInteger, 0, p, IntNum(n.negative, n.digits, 0)))
  {
    hide Run, Finish, Literal;
    v := NewValue(true, cfg, s.(flags := s.flags.(seekValue := false)), KInteger).s;
    HereAt(text, s.ptr, T.NumeralText(n), 0);
    RunStep(true, cfg, text, s);
    assert v.nodes[v.top := v.nodes[v.top].(kind := KInteger, integer := 0)] == v.nodes;
    assert IsDigit(n.digits[0]);
  }

  /** The sign is applied to an integer. */
  lemma SignedNode(s: State, v: State, n: T.Numeral, zero: bool, k: nat, p: nat)
    requires v.nodes == s.nodes + [FreshNode(KInteger, s.top)] && v.top == |s.nodes| && T.GoodNumeral(n)
    ensures var kind := if T.IsInteger(n) then KInteger else KDouble;
            var leaf := Signed(NumState(v, kind, Wrap64(T.Magnitude(n.digits)), p, EndNum(n, zero, k)));
            && leaf.nodes == s.nodes + [NumeralNode(n, s.top)] && leaf.ptr == p
            && leaf.top == v.top && leaf.alloc == v.alloc && leaf.flags == v.flags
  {
    hide T.Magnitude, Wrap64;
    WrapOnce(T.Magnitude(n.digits), 0);
  }

  /** Where the parts of a number stand. */
  lemma NumeralHere(text: string, i: nat, n: T.Numeral)
    requires T.GoodNumeral(n) && Here(text, i, T.NumeralText(n))
    ensures var sign, frac, exp := T.Sign(n.negative), T.FracText(n.frac), T.ExpText(n.exp);
            var p := i + |sign| + |n.digits|;
            && Here(text, i + |sign|, n.digits) && Here(text, p, frac) && Here(text, p + |frac|, exp)
            && i + |T.NumeralText(n)| == p + |frac| + |exp| <= |text|
  {
    hide Here;
    var sign, frac, exp := T.Sign(n.negative), T.FracText(n.frac), T.ExpText(n.exp);
    HereFits(text, i, T.NumeralText(n));
    HereSplit(text, i, sign, n.digits + (frac + exp));
    HereSplit(text, i + |sign|, n.digits, frac + exp);
    HereSplit(text, i + |sign| + |n.digits|, frac, exp);
  }

  /** From the last character of a number on. */
  lemma FinishNumber(cfg: Config, text: string, s: State, v: State, n: T.Numeral, zero: bool, k: nat, p: nat) returns (leaf: State)
    requires Base(v) && k > 0 && T.GoodNumeral(n) && p <= |text| && Stops(cfg, At(text, p))
    requires n.frac != "" ==> k == |n.frac| <= INT_MAX
    requires v.nodes == s.nodes + [FreshNode(KInteger, s.top)] && v.top == |s.nodes| && v.alloc == |s.nodes| + 1
    ensures leaf.ptr == p && leaf.top == |s.nodes| && leaf.alloc == |s.nodes| + 1 && leaf.flags == v.flags
    ensures leaf.nodes == s.nodes + [NumeralNode(n, s.top)]
    ensures var end := NumState(v, if T.IsInteger(n) then KInteger else KDouble, Wrap64(T.Magnitude(n.digits)), p, EndNum(n, zero, k));
            && (!T.TameNumeral(n) ==> Run(true, cfg, text, end) == Hang)
            && (T.TameNumeral(n) && Finish(true, leaf).Continue? ==>
                  Finish(true, leaf).s.ptr <= |text| && Run(true, cfg, text, end) == Run(true, cfg, text, Finish(true, leaf).s))
  {
    hide Step, Run, Finish, Signed, Wrap64, T.Magnitude, T.TameNumeral, NumState, NumeralNode;
    var kind := if T.IsInteger(n) then KInteger else KDouble;
    var end := NumState(v, kind, Wrap64(T.Magnitude(n.digits)), p, EndNum(n, zero, k));
    EndOfNumber(cfg, text, v, kind, Wrap64(T.Magnitude(n.digits)), n, zero, k, p);
    SignedNode(s, v, n, zero, k, p);
    leaf := Signed(end);
    RunStep(true, cfg, text, end);
  }

  /** What stands behind a fraction. */
  lemma AfterFrac(cfg: Config, text: string, n: T.Numeral, p: nat)
    requires T.GoodNumeral(n) && Here(text, p, T.ExpText(n.exp)) && Stops(cfg, At(text, p + |T.ExpText(n.exp)|))
    ensures Stops(cfg, At(text, p)) || At(text, p) == 'e' || At(text, p) == 'E'
  {
    if n.exp.Exponent? {
      HereAt(text, p, T.ExpText(n.exp), 0);
    }
  }

  lemma TooLong(n: T.Numeral)
    requires T.GoodNumeral(n) && |n.frac| > INT_MAX
    ensures !T.TameNumeral(n)
  {
  }

  /** The first pass reads a number: up to finishing its node, unless its exponent or a long fraction keeps it from coming back. */
  lemma ReadNumber1(cfg: Config, text: string, s: State, n: T.Numeral) returns (leaf: State)
    requires s.ptr <= |text| && AtValue(s) && T.GoodNumeral(n) && Here(text, s.ptr, T.NumeralText(n))
    requires Stops(cfg, At(text, s.ptr + |T.NumeralText(n)|))
    ensures leaf.ptr == s.ptr + |T.NumeralText(n)| <= |text| && leaf.top == |s.nodes| && leaf.alloc == |s.nodes| + 1
    ensures leaf.flags == s.flags.(seekValue := false) && leaf.nodes == s.nodes + [NumeralNode(n, s.top)]
    ensures !T.TameNumeral(n) ==> Run(true, cfg, text, s) == Hang
    ensures T.TameNumeral(n) && Finish(true, leaf).Continue? ==>
              Finish(true, leaf).s.ptr <= |text| && Run(true, cfg, text, s) == Run(true, cfg, text, Finish(true, leaf).s)
  {
    hide Step, Run, Finish, Here, Wrap64, T.Magnitude, T.TameNumeral, T.NumeralText, T.FracText, T.ExpText, NumState, NumeralNode, EndNum;
    NumeralHere(text, s.ptr, n);
    var p := s.ptr + |T.Sign(n.negative)|;
    var v := StartNumber(cfg, text, s, n);
    var m, zero := Wrap64(T.Magnitude(n.digits)), |n.digits| == 1 && n.digits[0] == '0';
    WrapNothing(n.digits);
    ReadInt(cfg, text, v, n.negative, n.digits, p, 0);
    p := p + |n.digits|;
    var kind, k := ReadFrac(cfg, text, v, m, n.negative, zero, |n.digits|, n.frac, p);
    p := p + |T.FracText(n.frac)|;
    if |n.frac| <= INT_MAX {
      ReadExp(cfg, text, v, kind, m, n, zero, k, p);
      leaf := FinishNumber(cfg, text, s, v, n, zero, k, p + |T.ExpText(n.exp)|);
    } else {
      TooLong(n);
      AfterFrac(cfg, text, n, p);
      LongFrac(cfg, text, v, m, n.negative, zero, k, p);
      leaf := v.(ptr := p + |T.ExpText(n.exp)|, nodes := s.nodes + [NumeralNode(n, s.top)]);
    }
  }

  lemma WrapNothing(d: string)
    requires T.AllDigits(d)
    ensures Wrap64(T.Magnitude(d[..0])) == 0
  {
  }

  /** All characters of a number are number characters. */
  lemma NumberChars(n: T.Numeral)
    requires T.GoodNumeral(n)
    ensures forall c :: c in T.NumeralText(n) ==> IsNumberChar(c)
  {
    forall c | c in T.NumeralText(n) ensures IsNumberChar(c) {
      assert c in T.Sign(n.negative) || c in n.digits || c in T.FracText(n.frac) || c in T.ExpText(n.exp);
    }
  }
}
