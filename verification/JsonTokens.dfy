/** How the first pass of src/json.c reads gaps, strings and numbers, on any text: as the grammar of JsonGrammar does. */
module JsonTokens {
  import opened JsonParser
  import opened JsonReading
  import opened JsonNumbers
  import T = JsonText
  import G = JsonGrammar

  // ----- white space and comments -----

  lemma {:induction false} LineRun(cfg: Config, text: string, s: State)
    requires s.ptr <= |text| && cfg.comments && !s.flags.inString
    ensures Run(true, cfg, text, s.(flags := s.flags.(lineComment := true)))
         == Run(true, cfg, text, s.(ptr := G.LineEnd(text, s.ptr), flags := s.flags.(lineComment := false)))
    decreases |text| - s.ptr
  {
    hide Run;
    var s1 := s.(flags := s.flags.(lineComment := true));
    RunStep(true, cfg, text, s1);
    if G.LineEnd(text, s.ptr) != s.ptr {
      LineRun(cfg, text, s.(ptr := s.ptr + 1));
    }
  }

  lemma {:induction false} BlockRun(cfg: Config, text: string, s: State)
    requires s.ptr <= |text| && cfg.comments && !s.flags.inString && !s.flags.lineComment
    ensures var b := G.BlockEnd(text, s.ptr);
            Run(true, cfg, text, s.(flags := s.flags.(blockComment := true))) == if b.To? then Run(true, cfg, text, s.(ptr := b.end, flags := s.flags.(blockComment := false))) else Reject
    decreases |text| - s.ptr
  {
    hide Run;
    var s1 := s.(flags := s.flags.(blockComment := true));
    RunStep(true, cfg, text, s1);
    if s.ptr < |text| && text[s.ptr] != '\0' && !(text[s.ptr] == '*' && At(text, s.ptr + 1) == '/') {
      BlockRun(cfg, text, s.(ptr := s.ptr + 1));
    }
  }

  /** The outcome, if the text is of the grammar up to here. */
  function Then(g: G.Scan, r: Outcome): Outcome {
    match g
    case To(_) => r
    case Bad => Reject
    case Stuck => Hang
  }

  lemma CommentStart(cfg: Config, text: string, s: State)
    requires s.ptr <= |text| && Between(s) && G.Comment(cfg, text, s.ptr)
    ensures Step(true, cfg, text, s) ==
              if s.ptr + 1 < |text| && text[s.ptr + 1] == '/' then Continue(s.(ptr := s.ptr + 2, flags := s.flags.(lineComment := true)))
              else if s.ptr + 1 < |text| && text[s.ptr + 1] == '*' then Continue(s.(ptr := s.ptr + 2, flags := s.flags.(blockComment := true)))
              else Reject
  {
  }

  /** Where the text stands after a gap. */
  function Past(s: State, g: G.Scan): (t: State)
    ensures !g.To? ==> t == s
  {
    if g.To? then s.(ptr := g.end) else s
  }

  lemma {:induction false} GapRun(cfg: Config, text: string, s: State)
    requires s.ptr <= |text| && Between(s)
    ensures var g := G.Gap(cfg, text, s.ptr); Run(true, cfg, text, s) == Then(g, Run(true, cfg, text, Past(s, g)))
    decreases |text| - s.ptr
  {
    hide Run, Step;
    var c := At(text, s.ptr);
    if G.Space(c) {
      GapStep(true, cfg, text, s);
      RunStep(true, cfg, text, s);
      GapRun(cfg, text, s.(ptr := s.ptr + 1));
    } else if G.Comment(cfg, text, s.ptr) {
      CommentStart(cfg, text, s);
      RunStep(true, cfg, text, s);
      if s.ptr + 1 < |text| {
        var s1 := s.(ptr := s.ptr + 2);
        assert s1.flags.(lineComment := false) == s.flags && s1.flags.(blockComment := false) == s.flags;
        if text[s.ptr + 1] == '/' {
          LineRun(cfg, text, s1);
          GapRun(cfg, text, s.(ptr := G.LineEnd(text, s1.ptr)));
        } else if text[s.ptr + 1] == '*' {
          BlockRun(cfg, text, s1);
          var b := G.BlockEnd(text, s1.ptr);
          if b.To? {
            GapRun(cfg, text, s.(ptr := b.end));
          }
        }
      }
    } else {
      assert Past(s, G.Gap(cfg, text, s.ptr)) == s;
    }
  }

  // ----- strings -----

  lemma Hexes(text: string, i: nat)
    ensures HexAt(text, i) <==> G.Hex4(text, i)
    ensures G.Hex4(text, i) ==> (IsSurrogate(CodeAt(text, i)) <==> G.HalfPair(text, i))
  {
    if G.Hex4(text, i) {
      var a, b, c, d := HexValue(text[i]), HexValue(text[i + 1]), HexValue(text[i + 2]), HexValue(text[i + 3]);
      HexDigits(text[i]);
      HexDigits(text[i + 1]);
      HexDigits(text[i + 2]);
      HexDigits(text[i + 3]);
      hide HexValue, G.HexDigit;
      assert 0 <= b * 256 + c * 16 + d < 4096 && CodeAt(text, i) == a * 4096 + (b * 256 + c * 16 + d);
    }
  }

  lemma HexDigits(c: char)
    ensures HexValue(c) != 0xFF <==> G.HexDigit(c)
    ensures HexValue(c) != 0xFF ==> HexValue(c) < 16
    ensures HexValue(c) == 13 <==> c == 'd' || c == 'D'
    ensures HexValue(c) < 8 <==> '0' <= c <= '7'
  {
  }

  lemma EscapeRead(text: string, i: nat)
    requires i < |text| && text[i] != '\0'
    ensures var e, d := G.EscapeEnd(text, i), DecodeEscape(text, i);
            if e.To? then d.Chars? && d.next == e.end && i + |d.out| <= d.next else d == Malformed
  {
    hide CodeAt, HexAt, PairCode, IsSurrogate, G.Hex4, G.HalfPair, Utf8;
    Hexes(text, i + 1);
    Hexes(text, i + 7);
  }

  /** A string is read up to its closing quote, which the state `t` looks at. */
  lemma {:induction false} StringRun(cfg: Config, text: string, s: State) returns (t: State)
    requires s.ptr <= |text| <= UINT_MAX && Reading(s) && s.strLen <= s.ptr
    ensures var q := G.StringEnd(text, s.ptr);
            if q.To? then
              && t == s.(ptr := q.end - 1, strLen := t.strLen) && t.strLen <= t.ptr
              && Run(true, cfg, text, s) == Run(true, cfg, text, t) && Step(true, cfg, text, t) == CloseString(true, t)
            else Run(true, cfg, text, s) == Reject
    decreases |text| - s.ptr
  {
    hide Run, Step, DecodeEscape, G.EscapeEnd, CloseString;
    t := s;
    RunStep(true, cfg, text, s);
    var c := At(text, s.ptr);
    if c == '\0' || c == '"' {
      QuoteStep(cfg, text, s);
    } else if c == '\\' {
      BackslashStep(true, cfg, text, s);
      var s1 := s.(ptr := s.ptr + 1, flags := s.flags.(escaped := true));
      RunStep(true, cfg, text, s1);
      EscapedStep(cfg, text, s, s1);
      var e := G.EscapeEnd(text, s1.ptr);
      if e.To? {
        t := StringRun(cfg, text, Step(true, cfg, text, s1).s);
      }
    } else {
      RawStep(true, cfg, text, s);
      t := StringRun(cfg, text, s.(ptr := s.ptr + 1, strLen := s.strLen + 1));
    }
  }

  lemma QuoteStep(cfg: Config, text: string, s: State)
    requires s.ptr <= |text| && Reading(s) && s.strLen <= UINT_MAX
    ensures At(text, s.ptr) == '\0' ==> Step(true, cfg, text, s) == Reject
    ensures At(text, s.ptr) == '"' ==> Step(true, cfg, text, s) == CloseString(true, s)
  {
    hide CloseString;
  }

  lemma EscapedStep(cfg: Config, text: string, s: State, s1: State)
    requires Reading(s) && s.strLen <= s.ptr && s1 == s.(ptr := s.ptr + 1, flags := s.flags.(escaped := true)) && s1.ptr <= |text| <= UINT_MAX
    ensures var r, e := Step(true, cfg, text, s1), G.EscapeEnd(text, s1.ptr);
            if e.To? then r.Continue? && r.s == s.(ptr := e.end, strLen := r.s.strLen) && r.s.strLen <= r.s.ptr else r == Reject
  {
    hide DecodeEscape, G.EscapeEnd;
    if At(text, s1.ptr) != '\0' {
      EscapeRead(text, s1.ptr);
      assert s1.flags.(escaped := false) == s.flags;
    } else {
      assert G.EscapeEnd(text, s1.ptr) == G.Bad by { NoEscape(text, s1.ptr); }
    }
  }

  lemma NoEscape(text: string, i: nat)
    requires i <= |text| && At(text, i) == '\0'
    ensures G.EscapeEnd(text, i) == G.Bad
  {
  }

  // ----- numbers -----

  /** What comes after the value at the top of `leaf` is complete. */
  function Onward(cfg: Config, text: string, leaf: State): Outcome
    requires leaf.ptr <= |text|
  {
    var f := Finish(true, leaf);
    if f.Continue? then Run(true, cfg, text, f.s) else f
  }

  /** The number that was begun at the top of `v` has been read up to `j`. */
  predicate Leaf(v: State, leaf: State, j: nat) {
    && ValidTop(v) && leaf == v.(ptr := j, nodes := leaf.nodes, num := leaf.num)
    && |leaf.nodes| == |v.nodes| && leaf.nodes == v.nodes[v.top := leaf.nodes[v.top]]
    && leaf.nodes[v.top].parent == v.nodes[v.top].parent
  }

  lemma SignedLeaf(v: State, kind: Kind, m: int, j: nat, num: Number)
    requires ValidTop(v)
    ensures Leaf(v, Signed(NumState(v, kind, m, j, num)), j)
  {
    hide Wrap64;
  }

  lemma {:induction false} DecimalMagnitude(d: string)
    requires T.AllDigits(d)
    ensures G.Decimal(d) == T.Magnitude(d)
    decreases |d|
  {
    if d != "" {
      DecimalMagnitude(d[..|d| - 1]);
    }
  }

  lemma DigitsHere(text: string, i: nat)
    requires i <= |text|
    ensures var d := text[i..G.DigitsEnd(text, i)]; T.AllDigits(d) && Here(text, i, d)
  {
  }

  /** The state behind the e of a number. */
  function Exponential(v: State, m: int, negative: bool, ptr: nat): (t: State)
    requires ValidTop(v)
    ensures t.ptr == ptr
  {
    NumState(v, KDouble, m, ptr, Number(negative, false, true, false, false, 0, 0))
  }

  lemma IntEnd(cfg: Config, text: string, v: State, m: int, negative: bool, zero: bool, k: nat, p: nat)
    requires Base(v) && p <= |text| && !G.Digit(At(text, p))
    ensures var t := NumState(v, KInteger, m, p, FracNum(negative, zero, k));
            var c := At(text, p);
            Step(true, cfg, text, t) ==
              if G.Comment(cfg, text, p) then Reject
              else if c == '.' then (if k == 0 then Reject else Continue(NumState(v, KDouble, m, p + 1, FracNum(negative, zero, 0))))
              else if G.IsE(c) then Continue(Exponential(v, m, negative, p + 1))
              else Finish(true, Signed(t))
  {
    hide Finish, Wrap64;
  }

  lemma FracEnd(cfg: Config, text: string, v: State, m: int, negative: bool, zero: bool, k: nat, p: nat)
    requires Base(v) && p <= |text| && !G.Digit(At(text, p))
    ensures var t := NumState(v, KDouble, m, p, FracNum(negative, zero, k));
            Step(true, cfg, text, t) ==
              if G.Comment(cfg, text, p) || k == 0 then Reject
              else if k > INT_MAX then Hang
              else if G.IsE(At(text, p)) then Continue(Exponential(v, m, negative, p + 1))
              else Finish(true, Signed(t))
  {
    hide Finish, Wrap64;
  }

  lemma ExpEnd(cfg: Config, text: string, v: State, m: int, negative: bool, got: bool, eNegative: bool, k: nat, x: nat, p: nat)
    requires Base(v) && p <= |text| && !G.Digit(At(text, p)) && (At(text, p) == '+' || At(text, p) == '-' ==> got)
    ensures var t := NumState(v, KDouble, m, p, Number(negative, false, true, got, eNegative, k, x));
            Step(true, cfg, text, t) ==
              if G.Comment(cfg, text, p) || k == 0 then Reject
              else if x > (if eNegative then 0 else INT_MAX) then Hang
              else Finish(true, Signed(t))
  {
    hide Finish, Wrap64;
  }

  lemma ExpSign(cfg: Config, text: string, v: State, m: int, negative: bool, p: nat)
    requires Base(v) && p < |text| && (text[p] == '+' || text[p] == '-')
    ensures Step(true, cfg, text, Exponential(v, m, negative, p))
         == Continue(NumState(v, KDouble, m, p + 1, Number(negative, false, true, true, text[p] == '-', 0, 0)))
  {
    hide Finish, Wrap64;
  }

  lemma {:induction false} ExpRun(cfg: Config, text: string, v: State, m: int, negative: bool, i: nat) returns (leaf: State)
    requires Base(v) && i <= |text|
    ensures var g := G.ExponentEnd(cfg, text, i);
            && leaf.ptr <= |text| && (g.To? ==> Leaf(v, leaf, g.end))
            && Run(true, cfg, text, Exponential(v, m, negative, i)) == Then(g, Onward(cfg, text, leaf))
  {
    hide Step, Run, Finish, Signed, Wrap64, T.Magnitude, G.Decimal, Leaf;
    var c := At(text, i);
    var got := c == '+' || c == '-';
    var a := if got then i + 1 else i;
    if got {
      ExpSign(cfg, text, v, m, negative, i);
      RunStep(true, cfg, text, Exponential(v, m, negative, i));
    }
    var b := G.DigitsEnd(text, a);
    var d := text[a..b];
    DigitsHere(text, a);
    Nothing();
    assert d[..0] == "" && d[..|d|] == d;
    ReadExpDigits(cfg, text, v, m, negative, got, c == '-', d, a, 0);
    DecimalMagnitude(d);
    ExpEnd(cfg, text, v, m, negative, got || b > a, c == '-', b - a, T.Magnitude(d), b);
    var t := NumState(v, KDouble, m, b, ExpNum(negative, got, c == '-', d, b - a));
    RunStep(true, cfg, text, t);
    leaf := Signed(t);
    SignedLeaf(v, KDouble, m, b, t.num);
    LeafPtr(v, leaf, b);
  }

  lemma LeafPtr(v: State, leaf: State, j: nat)
    requires Leaf(v, leaf, j)
    ensures leaf.ptr == j
  {
  }

  lemma {:induction false} FracRun(cfg: Config, text: string, v: State, m: int, negative: bool, zero: bool, i: nat) returns (leaf: State)
    requires Base(v) && i <= |text|
    ensures var g := G.FractionEnd(cfg, text, i);
            && leaf.ptr <= |text| && (g.To? ==> Leaf(v, leaf, g.end))
            && Run(true, cfg, text, NumState(v, KDouble, m, i, FracNum(negative, zero, 0))) == Then(g, Onward(cfg, text, leaf))
  {
    hide Step, Run, Finish, Signed, Wrap64, Leaf, G.ExponentEnd;
    var d := G.DigitsEnd(text, i);
    DigitsHere(text, i);
    ReadFracDigits(cfg, text, v, m, negative, zero, text[i..d], i, 0);
    FracEnd(cfg, text, v, m, negative, zero, d - i, d);
    var t := NumState(v, KDouble, m, d, FracNum(negative, zero, d - i));
    RunStep(true, cfg, text, t);
    if G.IsE(At(text, d)) {
      leaf := ExpRun(cfg, text, v, m, negative, d + 1);
    } else {
      leaf := Signed(t);
      SignedLeaf(v, KDouble, m, d, t.num);
      LeafPtr(v, leaf, d);
    }
  }

  /** The new node of a number, and its minus sign. */
  lemma NumberOpen(cfg: Config, text: string, s: State) returns (v: State)
    requires s.ptr < |text| && AtValue(s) && (G.Digit(text[s.ptr]) || text[s.ptr] == '-')
    ensures Base(v) && v.nodes == s.nodes + [FreshNode(KInteger, s.top)] && v.top == |s.nodes| && v.alloc == |s.nodes| + 1
    ensures v.flags == s.flags.(seekValue := false)
    ensures var negative := text[s.ptr] == '-';
            Run(true, cfg, text, s) == Run(true, cfg, text, NumState(v, KInteger, 0, if negative then s.ptr + 1 else s.ptr, FracNum(negative, false, 0)))
  {
    hide Run, Finish, Literal;
    v := NewValue(true, cfg, s.(flags := s.flags.(seekValue := false)), KInteger).s;
    RunStep(true, cfg, text, s);
    assert v.nodes[v.top := v.nodes[v.top].(kind := KInteger, integer := 0)] == v.nodes;
  }

  /** No digit may follow a leading zero. */
  lemma ZeroStep(cfg: Config, text: string, v: State, m: int, negative: bool, k: nat, p: nat)
    requires Base(v) && p < |text| && G.Digit(text[p])
    ensures Step(true, cfg, text, NumState(v, KInteger, m, p, FracNum(negative, true, k))) == Reject
  {
    hide Finish, Wrap64;
  }

  /** The digits before the point. */
  lemma {:induction false} IntRun(cfg: Config, text: string, v: State, negative: bool, a: nat) returns (m: int, zero: bool)
    requires Base(v) && a <= |text|
    ensures var b := G.DigitsEnd(text, a);
            Run(true, cfg, text, NumState(v, KInteger, 0, a, FracNum(negative, false, 0))) ==
              if b > a + 1 && text[a] == '0' then Reject
              else Run(true, cfg, text, NumState(v, KInteger, m, b, FracNum(negative, zero, b - a)))
  {
    hide Step, Run, Wrap64, T.Magnitude;
    var b := G.DigitsEnd(text, a);
    DigitsHere(text, a);
    var leading := b > a + 1 && text[a] == '0';
    var d := if leading then text[a..a + 1] else text[a..b];
    WrapNothing(d);
    ReadInt(cfg, text, v, negative, d, a, 0);
    m, zero := Wrap64(T.Magnitude(d)), |d| == 1 && d[0] == '0';
    if leading {
      ZeroStep(cfg, text, v, m, negative, 1, a + 1);
      RunStep(true, cfg, text, NumState(v, KInteger, m, a + 1, FracNum(negative, true, 1)));
    }
  }

  /** A whole number is read as the grammar says, up to completing its node. */
  lemma {:induction false} NumberRun(cfg: Config, text: string, s: State) returns (v: State, leaf: State)
    requires s.ptr < |text| && AtValue(s) && (G.Digit(text[s.ptr]) || text[s.ptr] == '-')
    ensures v.nodes == s.nodes + [FreshNode(KInteger, s.top)] && v.top == |s.nodes| && v.alloc == |s.nodes| + 1
    ensures v.flags == s.flags.(seekValue := false)
    ensures var g := G.NumberEnd(cfg, text, s.ptr);
            && leaf.ptr <= |text| && (g.To? ==> Leaf(v, leaf, g.end))
            && Run(true, cfg, text, s) == Then(g, Onward(cfg, text, leaf))
  {
    hide Step, Run, Finish, Signed, Wrap64, Leaf, G.ExponentEnd, G.FractionEnd;
    v := NumberOpen(cfg, text, s);
    var negative := text[s.ptr] == '-';
    var a := if negative then s.ptr + 1 else s.ptr;
    var b := G.DigitsEnd(text, a);
    var m, zero := IntRun(cfg, text, v, negative, a);
    leaf := s;
    if !(b > a + 1 && text[a] == '0') {
      IntEnd(cfg, text, v, m, negative, zero, b - a, b);
      var t := NumState(v, KInteger, m, b, FracNum(negative, zero, b - a));
      RunStep(true, cfg, text, t);
      if At(text, b) == '.' && b > a {
        leaf := FracRun(cfg, text, v, m, negative, zero, b + 1);
      } else if G.IsE(At(text, b)) {
        leaf := ExpRun(cfg, text, v, m, negative, b + 1);
      } else {
        leaf := Signed(t);
        SignedLeaf(v, KInteger, m, b, t.num);
        LeafPtr(v, leaf, b);
      }
    }
  }
}
