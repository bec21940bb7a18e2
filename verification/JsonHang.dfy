/** When src/json.c does not come back: only on a number whose exponent is negative, or that is very long. */
module JsonHang {
  import opened JsonParser
  import opened JsonPasses
  import JsonTree

  predicate IsE(c: char) { c == 'e' || c == 'E' }

  predicate TenDigits(text: string, k: nat) {
    k + 10 <= |text| && forall i :: k <= i < k + 10 ==> IsDigit(text[i])
  }

  /** An exponent that is negative, or has ten digits or more. */
  predicate BadExponentAt(text: string, k: nat) {
    && k < |text| && IsE(text[k])
    && (At(text, k + 1) == '-' || TenDigits(text, k + 1) || (At(text, k + 1) == '+' && TenDigits(text, k + 2)))
  }

  /** A fraction of so many digits that their number is no int. */
  predicate LongFractionAt(text: string, k: nat) {
    k + 1 + INT_MAX < |text| && text[k] == '.' && forall i :: k < i <= k + 1 + INT_MAX ==> IsDigit(text[i])
  }

  ghost predicate BadNumber(text: string) { exists k :: BadExponentAt(text, k) || LongFractionAt(text, k) }

  /** An e, and perhaps a sign, right before `q`. */
  predicate ExponentFrom(text: string, q: nat) {
    || (1 <= q <= |text| && IsE(text[q - 1]))
    || (2 <= q <= |text| && IsE(text[q - 2]) && (text[q - 1] == '+' || text[q - 1] == '-'))
  }

  function Pow10(n: nat): nat { if n == 0 then 1 else 10 * Pow10(n - 1) }

  /** What the parser remembers of a number has been read. */
  ghost predicate Seen(text: string, s: State) {
    InNumber(s) ==>
      if s.num.e then s.nodes[s.top].kind.KDouble? && InExponent(text, s.ptr, s.num)
      else s.num.exp == 0 && !s.num.eNegative && (s.nodes[s.top].kind.KDouble? ==> InFraction(text, s.ptr, s.num.digits))
  }

  predicate InFraction(text: string, i: nat, digits: nat) {
    digits < i <= |text| && text[i - digits - 1] == '.' && forall k :: i - digits <= k < i ==> IsDigit(text[k])
  }

  ghost predicate InExponent(text: string, i: nat, num: Number) {
    && num.digits <= i <= |text| && num.exp < Pow10(num.digits)
    && (num.eNegative ==> BadNumber(text))
    && (forall k :: i - num.digits <= k < i ==> IsDigit(text[k]))
    && (if num.eGotSign then ExponentFrom(text, i - num.digits) else num.digits == 0 < i && IsE(text[i - 1]))
  }

  /** Nine digits make an int. */
  lemma NineDigits()
    ensures forall n :: 0 <= n <= 9 ==> Pow10(n) <= 1000000000
  {
    assert Pow10(3) == 1000;
    assert Pow10(6) == 1000000;
    assert Pow10(9) == 1000000000;
    forall n | 0 <= n <= 9 ensures Pow10(n) <= 1000000000 {
      assert n in {0, 1, 2, 3, 4, 5, 6, 7, 8, 9};
    }
  }

  lemma DigitSeen(text: string, s: State)
    requires s.ptr < |text| && InNumber(s) && Seen(text, s) && IsDigit(text[s.ptr])
    ensures var r := DigitStep(s, text[s.ptr]); (r.Continue? ==> Seen(text, r.s)) && !r.Hang?
  {
    hide Wrap64, BadNumber;
  }

  lemma SignSeen(text: string, i: nat, num: Number)
    requires i < |text| && InExponent(text, i, num) && num.e && !num.eGotSign && (text[i] == '+' || text[i] == '-')
    ensures InExponent(text, i + 1, num.(eGotSign := true, eNegative := num.eNegative || text[i] == '-'))
  {
    assert text[i] == '-' ==> BadExponentAt(text, i - 1);
  }

  lemma LongExponent(text: string, i: nat, num: Number)
    requires InExponent(text, i, num) && num.eGotSign && num.digits >= 10
    ensures BadNumber(text)
  {
    var q := i - num.digits;
    assert TenDigits(text, q);
    assert BadExponentAt(text, q - 1) || BadExponentAt(text, q - 2);
  }

  lemma EndSeen(text: string, s: State)
    requires s.ptr <= |text| && InNumber(s) && Seen(text, s)
    ensures var r := NumberEnd(true, s); (r.Continue? ==> r.s.flags.needComma) && (r.Hang? ==> BadNumber(text))
  {
    hide Finish, BadNumber;
    FinishOut(Signed(s));
    if s.num.e && s.num.digits > 0 && s.num.exp > INT_MAX {
      NineDigits();
      LongExponent(text, s.ptr, s.num);
    }
  }

  lemma FractionSeen(text: string, i: nat, digits: nat)
    requires InFraction(text, i, digits) && digits > INT_MAX
    ensures BadNumber(text)
  {
    assert LongFractionAt(text, i - digits - 1);
  }

  lemma NumberSeen(text: string, s: State)
    requires s.ptr <= |text| && InNumber(s) && Seen(text, s)
    ensures var r := NumberStep(true, text, s);
            && (r.Continue? && !r.s.flags.needComma ==> Seen(text, r.s))
            && (r.Hang? ==> BadNumber(text))
  {
    hide NumberEnd, DigitStep, BadNumber;
    EndSeen(text, s);
    var b := At(text, s.ptr);
    if IsDigit(b) {
      DigitSeen(text, s);
    } else if (b == '+' || b == '-') && s.num.e && !s.num.eGotSign {
      SignSeen(text, s.ptr, s.num);
    } else if !s.num.e && s.nodes[s.top].kind.KDouble? && s.num.digits > INT_MAX {
      FractionSeen(text, s.ptr, s.num.digits);
    }
  }

  /** A value that is complete is not a number in progress. */
  lemma FinishOut(s: State)
    ensures var r := Finish(true, s); (r.Continue? ==> !InNumber(r.s)) && !r.Hang?
  {
  }

  lemma LiteralSeen(cfg: Config, text: string, s: State, word: string, kind: Kind, truth: bool)
    ensures var r := Literal(true, cfg, text, s, word, kind, truth);
            (r.Continue? ==> !InNumber(r.s)) && !r.Hang?
  {
    hide Finish, Word;
    var r := NewValue(true, cfg, s, kind);
    var n := r.s.nodes[r.s.top];
    FinishOut(SetTop(r.s, n.(boolean := truth || n.boolean)).(ptr := s.ptr + |word|));
  }

  lemma NumberStartSeen(cfg: Config, text: string, s: State)
    requires s.ptr <= |text|
    ensures var r := NumberStart(true, cfg, text, s); (r.Continue? ==> Seen(text, r.s)) && !r.Hang?
  {
    hide Finish, SkipNumber;
  }

  lemma SeekSeen(cfg: Config, text: string, s: State)
    requires s.ptr <= |text| && s.flags.seekValue && !s.flags.inString && !s.flags.done
    ensures var r := SeekStep(true, cfg, text, s); !r.Hang? && (r.Continue? ==> Seen(text, r.s))
  {
    hide Finish, Literal, NumberStart;
    var s' := s.(flags := s.flags.(seekValue := false));
    FinishOut(s.(ptr := s.ptr + 1, flags := s.flags.(needComma := false, seekValue := false)));
    LiteralSeen(cfg, text, s', "true", KBoolean, true);
    LiteralSeen(cfg, text, s', "false", KBoolean, false);
    LiteralSeen(cfg, text, s', "null", KNull, false);
    NumberStartSeen(cfg, text, s');
  }

  lemma StepSeen(cfg: Config, text: string, s: State, path: seq<int>)
    requires s.ptr <= |text| && WF(cfg, s, path) && Seen(text, s)
    ensures var r := Step(true, cfg, text, s);
            && (r.Continue? ==> Seen(text, r.s)) && (r.Hang? ==> BadNumber(text))
  {
    hide SeekStep, NumberStep, Chain, BadNumber;
    if s.flags.inString {
    } else if cfg.comments && (s.flags.lineComment || s.flags.blockComment || At(text, s.ptr) == '/') {
    } else if s.flags.done {
    } else if s.flags.seekValue {
      SeekSeen(cfg, text, s);
    } else if s.nodes[s.top].kind.KObject? {
    } else {
      NumberSeen(text, s);
    }
  }

  lemma {:induction false} RunSeen(cfg: Config, text: string, s: State, path: seq<int>)
    requires s.ptr <= |text| && WF(cfg, s, path) && Seen(text, s)
    ensures Run(true, cfg, text, s).Hang? ==> BadNumber(text)
    decreases Measure(cfg, text, s)
  {
    hide Step, WF, Seen, BadNumber;
    StepWF(cfg, text, s, path);
    StepSeen(cfg, text, s, path);
    StepProgress(true, cfg, text, s);
    var r := Step(true, cfg, text, s);
    if r.Continue? {
      RunSeen(cfg, text, r.s, Next(s, r.s, path));
    }
  }

  /** From a text without such a number the parser comes back, whatever else it holds. */
  lemma ParseEnds(cfg: Config, json: string)
    requires !BadNumber(SkipMark(json))
    ensures !Parse(cfg, json).Hang?
  {
    hide BadNumber, Run, JsonTree.IsTree, Oversized;
    var text := SkipMark(json);
    RunSeen(cfg, text, Start([]), []);
    if Run(true, cfg, text, Start([])).Accept? {
      JsonTree.SecondPassFollows(cfg, text);
    }
  }

  /** The smallest such number, which is one of RFC 8259 section 6: the parser never returns from it. */
  lemma OneTenthHangs(cfg: Config)
    ensures Parse(cfg, "1e-1").Hang?
  {
    hide Run;
    var text := "1e-1";
    var one := FreshNode(KInteger, NONE);
    var flags := Start([]).flags.(seekValue := false);
    var s1 := State(0, 0, [one], 1, flags, NoNumber, 0);
    var s2 := s1.(ptr := 1, nodes := [one.(integer := 1)], num := NoNumber.(digits := 1));
    var s3 := s2.(ptr := 2, nodes := [one.(integer := 1, kind := KDouble)], num := NoNumber.(e := true));
    var s4 := s3.(ptr := 3, num := s3.num.(eGotSign := true, eNegative := true));
    var s5 := s4.(ptr := 4, num := s4.num.(digits := 1, exp := 1));
    assert Step(true, cfg, text, Start([])) == Continue(s1);
    RunStep(true, cfg, text, Start([]));
    assert Step(true, cfg, text, s1) == Continue(s2);
    RunStep(true, cfg, text, s1);
    assert Step(true, cfg, text, s2) == Continue(s3);
    RunStep(true, cfg, text, s2);
    assert Step(true, cfg, text, s3) == Continue(s4);
    RunStep(true, cfg, text, s3);
    assert Step(true, cfg, text, s4) == Continue(s5);
    RunStep(true, cfg, text, s4);
    assert Step(true, cfg, text, s5) == Hang;
    RunStep(true, cfg, text, s5);
  }
}
