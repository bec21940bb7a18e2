/** How either pass of src/json.c reads the pieces of a JSON text: white space, strings, numbers. */
module JsonReading {
  import opened JsonParser
  import T = JsonText

  /** `w` is written at `i`. */
  predicate Here(text: string, i: nat, w: string) {
    i + |w| <= |text| && text[i..i + |w|] == w
  }

  lemma HereSplit(text: string, i: nat, a: string, b: string)
    requires Here(text, i, a + b)
    ensures Here(text, i, a) && Here(text, i + |a|, b)
  {
    var w := text[i..i + |a + b|];
    assert w[..|a|] == a && w[|a|..] == b;
    assert text[i..i + |a|] == w[..|a|] && text[i + |a|..i + |a| + |b|] == w[|a|..];
  }

  lemma HereAt(text: string, i: nat, w: string, k: nat)
    requires Here(text, i, w) && k < |w|
    ensures At(text, i + k) == w[k]
  {
    assert text[i..i + |w|][k] == text[i + k];
  }

  lemma HereFits(text: string, i: nat, w: string)
    requires Here(text, i, w)
    ensures i + |w| <= |text|
  {
  }

  /** No comment is open. */
  predicate Plain(s: State) { !s.flags.lineComment && !s.flags.blockComment }

  /** Between tokens. */
  predicate Between(s: State) {
    Plain(s) && !s.flags.inString && (s.flags.done || s.flags.seekValue || (ValidTop(s) && s.nodes[s.top].kind.KObject?))
  }

  lemma {:induction false} ReadGap(first: bool, cfg: Config, text: string, s: State, w: string)
    requires s.ptr <= |text| && Here(text, s.ptr, w) && T.IsGap(w) && Between(s)
    ensures Run(first, cfg, text, s) == Run(first, cfg, text, s.(ptr := s.ptr + |w|))
    decreases |w|
  {
    hide Step, Run, Here, Between;
    if w == "" {
      assert s.(ptr := s.ptr + |w|) == s;
    } else {
      GapParts(text, s, w);
      var t := s.(ptr := s.ptr + 1);
      GapStep(first, cfg, text, s);
      RunStep(first, cfg, text, s);
      ReadGap(first, cfg, text, t, w[1..]);
      assert t.(ptr := t.ptr + |w[1..]|) == s.(ptr := s.ptr + |w|);
    }
  }

  lemma GapParts(text: string, s: State, w: string)
    requires Here(text, s.ptr, w) && T.IsGap(w) && w != "" && Between(s)
    ensures s.ptr < |text| && IsSpace(At(text, s.ptr)) && Here(text, s.ptr + 1, w[1..]) && Between(s.(ptr := s.ptr + 1))
  {
    HereAt(text, s.ptr, w, 0);
    assert w == w[..1] + w[1..];
    HereSplit(text, s.ptr, w[..1], w[1..]);
  }

  lemma GapStep(first: bool, cfg: Config, text: string, s: State)
    requires s.ptr <= |text| && Between(s) && IsSpace(At(text, s.ptr))
    ensures Step(first, cfg, text, s) == Continue(s.(ptr := s.ptr + 1))
  {
    hide StringStep, Finish, NewValue, Literal, NumberStart;
  }

  // ----- strings -----

  /** A string is being read, and not in the middle of an escape. */
  predicate Reading(s: State) { s.flags.inString && !s.flags.escaped }

  lemma AddAdd(first: bool, s: State, a: string, b: string)
    requires AddChars(first, s, a + b).Continue?
    ensures AddChars(first, s, a).Continue?
    ensures AddChars(first, AddChars(first, s, a).s, b) == AddChars(first, s, a + b)
  {
    if !first {
      var n := s.nodes[s.top];
      var at := (if n.kind.KObject? then n.memAt else 0) + s.strLen;
      var m := n.mem[..at] + a + n.mem[at + |a|..];
      assert m[..at + |a|] + b + m[at + |a| + |b|..] == n.mem[..at] + (a + b) + n.mem[at + |a + b|..];
      var n1 := AddChars(first, s, a).s.nodes[s.top];
      assert n1.mem == m;
    }
  }

  lemma AddPtr(first: bool, s: State, out: string, ptr: nat)
    requires AddChars(first, s, out).Continue?
    ensures AddChars(first, s.(ptr := ptr), out) == Continue(AddChars(first, s, out).s.(ptr := ptr))
  {
  }

  lemma AddNothing(first: bool, s: State)
    requires AddChars(first, s, "").Continue?
    ensures AddChars(first, s, "").s == s
  {
    if !first {
      var n := s.nodes[s.top];
      var at := (if n.kind.KObject? then n.memAt else 0) + s.strLen;
      assert n.mem[..at] + "" + n.mem[at..] == n.mem;
    }
  }

  lemma HexHere(text: string, i: nat, d: string)
    requires Here(text, i, d) && T.IsHex4(d)
    ensures HexAt(text, i) && CodeAt(text, i) == CodeAt(d, 0)
  {
    HereAt(text, i, d, 0);
    HereAt(text, i, d, 1);
    HereAt(text, i, d, 2);
    HereAt(text, i, d, 3);
  }

  /** The escape behind the backslash at `i` decodes to the bytes of the element. */
  lemma DecodeElem(text: string, i: nat, e: T.Elem)
    requires T.GoodElem(e) && !e.Raw? && Here(text, i, T.ElemText(e))
    ensures At(text, i) == '\\' && i + 1 < |text| && text[i + 1] != '\0'
    ensures DecodeEscape(text, i + 1) == Chars(i + |T.ElemText(e)|, T.ElemBytes(false, e))
  {
    var w := T.ElemText(e);
    HereAt(text, i, w, 0);
    HereAt(text, i, w, 1);
    hide CodeAt, HexAt, Utf8, PairCode;
    match e
    case Short(c) =>
    case Code(d) =>
      HereSplit(text, i, "\\u", d);
      HexHere(text, i + 2, d);
    case Pair(hi, lo) =>
      assert w == "\\u" + (hi + ("\\u" + lo));
      HereSplit(text, i, "\\u", hi + ("\\u" + lo));
      HereSplit(text, i + 2, hi, "\\u" + lo);
      HereSplit(text, i + 6, "\\u", lo);
      HereAt(text, i + 6, "\\u", 0);
      HereAt(text, i + 6, "\\u", 1);
      HexHere(text, i + 2, hi);
      HexHere(text, i + 8, lo);
  }

  lemma ReadElem(first: bool, cfg: Config, text: string, s: State, e: T.Elem)
    requires s.ptr <= |text| && Reading(s) && s.strLen <= UINT_MAX && T.GoodElem(e) && Here(text, s.ptr, T.ElemText(e))
    requires AddChars(first, s, T.ElemBytes(false, e)).Continue?
    ensures var t := AddChars(first, s, T.ElemBytes(false, e)).s.(ptr := s.ptr + |T.ElemText(e)|);
            Run(first, cfg, text, s) == Run(first, cfg, text, t)
  {
    hide AddChars, T.ElemBytes, Step, DecodeEscape;
    var out := T.ElemBytes(false, e);
    var next := s.ptr + |T.ElemText(e)|;
    AddPtr(first, s, out, next);
    RunStep(first, cfg, text, s);
    if e.Raw? {
      HereAt(text, s.ptr, T.ElemText(e), 0);
      RawBytes(e);
      RawStep(first, cfg, text, s);
    } else {
      DecodeElem(text, s.ptr, e);
      BackslashStep(first, cfg, text, s);
      var s1 := s.(ptr := s.ptr + 1, flags := s.flags.(escaped := true));
      RunStep(first, cfg, text, s1);
      EscapeAdds(first, cfg, text, s, s1, next, out);
    }
  }

  lemma RawStep(first: bool, cfg: Config, text: string, s: State)
    requires s.ptr <= |text| && Reading(s) && s.strLen <= UINT_MAX
    requires var b := At(text, s.ptr); b != '\0' && b != '"' && b != '\\'
    ensures Step(first, cfg, text, s) == AddChars(first, s.(ptr := s.ptr + 1), [At(text, s.ptr)])
  {
    hide AddChars;
  }

  lemma BackslashStep(first: bool, cfg: Config, text: string, s: State)
    requires s.ptr <= |text| && Reading(s) && s.strLen <= UINT_MAX && At(text, s.ptr) == '\\'
    ensures Step(first, cfg, text, s) == Continue(s.(ptr := s.ptr + 1, flags := s.flags.(escaped := true)))
  {
  }

  lemma RawBytes(e: T.Elem)
    requires T.GoodElem(e) && e.Raw?
    ensures T.ElemBytes(false, e) == [e.c]
  {
  }

  lemma EscapeAdds(first: bool, cfg: Config, text: string, s: State, s1: State, next: nat, out: string)
    requires Reading(s) && s.strLen <= UINT_MAX && s1 == s.(ptr := s.ptr + 1, flags := s.flags.(escaped := true))
    requires s1.ptr < |text| && DecodeEscape(text, s1.ptr) == Chars(next, out) && At(text, s1.ptr) != '\0'
    ensures Step(first, cfg, text, s1) == AddChars(first, s.(ptr := next), out)
  {
    hide AddChars, DecodeEscape;
    assert s1.(ptr := next, flags := s1.flags.(escaped := false)) == s.(ptr := next);
  }

  /** A whole run of characters. */
  lemma {:induction false} ReadChars(first: bool, cfg: Config, text: string, s: State, es: seq<T.Elem>)
    requires s.ptr <= |text| && Reading(s) && T.GoodElems(es) && Here(text, s.ptr, T.ElemsText(es))
    requires s.strLen + |T.Bytes(false, es)| <= UINT_MAX
    requires AddChars(first, s, T.Bytes(false, es)).Continue?
    ensures var t := AddChars(first, s, T.Bytes(false, es)).s.(ptr := s.ptr + |T.ElemsText(es)|);
            Run(first, cfg, text, s) == Run(first, cfg, text, t)
    decreases |es|
  {
    hide AddChars, T.ElemBytes, T.ElemText, Run, T.GoodElem;
    if es == [] {
      AddNothing(first, s);
    } else {
      var a, b := T.ElemBytes(false, es[0]), T.Bytes(false, es[1..]);
      HereSplit(text, s.ptr, T.ElemText(es[0]), T.ElemsText(es[1..]));
      AddAdd(first, s, a, b);
      ReadElem(first, cfg, text, s, es[0]);
      var next := s.ptr + |T.ElemText(es[0])|;
      var s1 := AddChars(first, s, a).s;
      AddPtr(first, s1, b, next);
      AddLength(first, s, a);
      ReadChars(first, cfg, text, s1.(ptr := next), es[1..]);
    }
  }

  lemma AddLength(first: bool, s: State, out: string)
    requires AddChars(first, s, out).Continue?
    ensures AddChars(first, s, out).s.strLen == s.strLen + |out|
  {
  }

  // ----- numbers -----

  /** A value is to be read next. */
  predicate AtValue(s: State) {
    s.flags == Flags(false, true, false, false, false, false, false, false)
  }

  /** What may follow a value: white space, a comma, a closing bracket, or the end. */
  predicate Ends(c: char) { IsSpace(c) || c == ',' || c == ']' || c == '}' || c == '\0' }
}
