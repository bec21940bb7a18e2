/** What src/json.c accepts: its first pass comes to what the grammar of JsonGrammar says, on every text. */
module JsonVerdict {
  import opened JsonParser
  import opened JsonReading
  import opened JsonFirstReading
  import opened JsonTokens
  import G = JsonGrammar

  /** Behind a gap. */
  predicate Token(cfg: Config, text: string, i: nat) { !G.Space(At(text, i)) && !G.Comment(cfg, text, i) }

  /** A container counts no more values than characters have been read, so that its count fits. */
  predicate Paid(s: State) { ValidTop(s) ==> s.nodes[s.top].length < s.ptr }

  predicate OpenArray(s: State) { ValidTop(s) && s.nodes[s.top].kind.KArray? }

  // ----- scalars -----

  lemma WordHere(text: string, i: nat, w: string)
    requires w != "" && w[|w| - 1] != '\0'
    ensures Word(text, i, w) <==> G.Word(text, i, w)
    ensures G.Word(text, i, w) <==> Here(text, i, w)
  {
    WordFits(text, i, w);
  }

  lemma NoValue(cfg: Config, text: string, s: State)
    requires s.ptr <= |text| && AtValue(s) && Token(cfg, text, s.ptr) && !(At(text, s.ptr) == ']' && OpenArray(s))
    requires var c := At(text, s.ptr); c != '{' && c != '[' && c != '"' && c != '-' && !G.Digit(c)
    requires !G.Word(text, s.ptr, "true") && !G.Word(text, s.ptr, "null") && !G.Word(text, s.ptr, "false")
    ensures Step(true, cfg, text, s) == Reject
  {
    hide Finish, NewValue, NumberStart;
    WordHere(text, s.ptr, "true");
    WordHere(text, s.ptr, "null");
    WordHere(text, s.ptr, "false");
  }

  lemma WordRun(cfg: Config, text: string, s: State) returns (t: State, block: seq<Node>)
    requires s.ptr <= |text| && Ctx(s)
    requires G.Word(text, s.ptr, "true") || G.Word(text, s.ptr, "null") || G.Word(text, s.ptr, "false")
    ensures After1(s, t, block, if G.Word(text, s.ptr, "false") then 5 else 4)
    ensures t.ptr <= |text| && Run(true, cfg, text, s) == Run(true, cfg, text, t)
  {
    hide Run, Ctx, After1;
    var word := if G.Word(text, s.ptr, "true") then "true" else if G.Word(text, s.ptr, "null") then "null" else "false";
    WordHere(text, s.ptr, word);
    if G.Word(text, s.ptr, "false") {
      assert text[s.ptr] == 'f';
    }
    t := ReadLiteral1(cfg, text, s, word, if word == "null" then KNull else KBoolean, word == "true");
    block := [FreshNode(if word == "null" then KNull else KBoolean, s.top).(boolean := word == "true")];
  }

  lemma {:induction false} QuoteRun(cfg: Config, text: string, s: State) returns (t: State, block: seq<Node>)
    requires s.ptr < |text| <= UINT_MAX && Ctx(s) && text[s.ptr] == '"'
    ensures var g := G.StringEnd(text, s.ptr + 1);
            && t.ptr <= |text| && (g.To? ==> After1(s, t, block, g.end - s.ptr))
            && Run(true, cfg, text, s) == Then(g, Run(true, cfg, text, t))
  {
    hide Run, Finish, Step, G.StringEnd;
    assert Here(text, s.ptr, "\"");
    var s1 := OpenQuote1(cfg, text, s);
    var s2 := StringRun(cfg, text, s1);
    t, block := s, [];
    if G.StringEnd(text, s.ptr + 1).To? {
      var n := FreshNode(KString, s.top).(length := s2.strLen);
      var leaf := SetTop(s2, n).(ptr := s2.ptr + 1, flags := s.flags.(seekValue := false));
      block := [n];
      assert leaf.nodes == s.nodes + block;
      Close1(s, leaf, block);
      RunStep(true, cfg, text, s2);
      t := Finish(true, leaf).s;
    }
  }

  lemma {:induction false} FigureRun(cfg: Config, text: string, s: State) returns (t: State, block: seq<Node>)
    requires s.ptr < |text| && Ctx(s) && (G.Digit(text[s.ptr]) || text[s.ptr] == '-')
    ensures var g := G.NumberEnd(cfg, text, s.ptr);
            && t.ptr <= |text| && (g.To? ==> After1(s, t, block, g.end - s.ptr))
            && Run(true, cfg, text, s) == Then(g, Run(true, cfg, text, t))
  {
    hide Run, Finish, Step, G.NumberEnd;
    var v, leaf := NumberRun(cfg, text, s);
    t, block := s, [];
    if G.NumberEnd(cfg, text, s.ptr).To? {
      block := [leaf.nodes[v.top]];
      assert leaf.nodes == s.nodes + block;
      Close1(s, leaf, block);
      t := Finish(true, leaf).s;
    }
  }

  // ----- containers -----

  /** Nodes have been added, and of the others only the one at `k` has changed, in its counts. */
  predicate Grown(nodes: seq<Node>, nodes': seq<Node>, k: int) {
    && 0 <= k < |nodes| <= |nodes'| && nodes'[..k] == nodes[..k]
    && nodes'[k].kind == nodes[k].kind && nodes'[k].parent == nodes[k].parent
  }

  lemma AfterGrows(s: State, t: State, block: seq<Node>, len: nat)
    requires Ctx(s) && s.top != NONE && After1(s, t, block, len)
    ensures Grown(s.nodes, t.nodes, s.top) && t.nodes[s.top].length == s.nodes[s.top].length + 1
  {
  }

  lemma NextStep(cfg: Config, text: string, s: State, close: char)
    requires s.ptr <= |text| && Behind(s, close) && Token(cfg, text, s.ptr) && At(text, s.ptr) != close
    ensures Step(true, cfg, text, s) ==
              if At(text, s.ptr) == ',' then Continue(s.(ptr := s.ptr + 1, flags := s.flags.(needComma := false))) else Reject
  {
    hide Finish, NewValue, NumberStart, Literal;
  }

  /** Inside a container that `close` closes; `comma` says that a comma must come before the next value. */
  predicate Inside(s: State, close: char, comma: bool) {
    && (close == ']' || close == '}')
    && s.alloc == |s.nodes| && ValidTop(s) && s.nodes[s.top].kind == (if close == ']' then KArray else KObject)
    && s.flags == Flags(comma, close == ']', false, false, false, false, false, false)
  }

  /** Behind a value in a container. */
  predicate Behind(s: State, close: char) { Inside(s, close, true) }

  lemma {:induction false} NextRun(cfg: Config, text: string, s: State, close: char) returns (t: State)
    requires s.ptr <= |text| && Behind(s, close)
    ensures var n := G.NextEntry(cfg, text, s.ptr, close);
            && t.ptr <= |text| && Run(true, cfg, text, s) == Then(n, Run(true, cfg, text, t))
            && (n.To? ==>
                  && t == s.(ptr := n.end, flags := s.flags.(needComma := t.flags.needComma)) && Token(cfg, text, t.ptr)
                  && (At(text, t.ptr) != close ==> !t.flags.needComma))
  {
    hide Run, Step, G.Gap;
    GapRun(cfg, text, s);
    var g := G.Gap(cfg, text, s.ptr);
    t := Past(s, g);
    if g.To? && At(text, g.end) != close {
      NextStep(cfg, text, t, close);
      RunStep(true, cfg, text, t);
      if At(text, g.end) == ',' {
        t := t.(ptr := t.ptr + 1, flags := t.flags.(needComma := false));
        GapRun(cfg, text, t);
        t := Past(t, G.Gap(cfg, text, t.ptr));
      }
    }
  }

  /** From inside a container to its closing bracket, which the state `t` looks at. */
  ghost predicate Filled(cfg: Config, text: string, s: State, t: State, g: G.Scan, close: char)
    requires s.ptr <= |text| && t.ptr <= |text|
  {
    && Run(true, cfg, text, s) == Then(g, Run(true, cfg, text, t))
    && (g.To? ==>
          && t.ptr + 1 == g.end && At(text, t.ptr) == close && Inside(t, close, t.flags.needComma)
          && t.top == s.top && Grown(s.nodes, t.nodes, s.top))
  }

  lemma {:induction false} ArrayRun(cfg: Config, text: string, s: State) returns (t: State, block: seq<Node>)
    requires s.ptr < |text| <= UINT_MAX && Ctx(s) && text[s.ptr] == '['
    ensures var g := G.ValueEnd(cfg, text, s.ptr);
            && t.ptr <= |text| && (g.To? ==> After1(s, t, block, g.end - s.ptr))
            && Run(true, cfg, text, s) == Then(g, Run(true, cfg, text, t))
    decreases |text| - s.ptr, 0
  {
    hide Run, Step, After1, G.Gap, G.ItemsEnd, Finish;
    t, block := s, [];
    var s1 := OpenBracket1(cfg, text, s, KArray);
    GapRun(cfg, text, s1);
    var g := G.Gap(cfg, text, s1.ptr);
    if g.To? {
      var s2 := Past(s1, g);
      var s3 := ItemsRun(cfg, text, s2);
      if G.ItemsEnd(cfg, text, g.end).To? {
        block := s3.nodes[|s.nodes|..];
        assert s3.nodes == s.nodes + block;
        t := CloseBracket1(cfg, text, s, s3, block);
      }
    }
  }

  lemma {:induction false} ItemsRun(cfg: Config, text: string, s: State) returns (t: State)
    requires s.ptr <= |text| <= UINT_MAX && Inside(s, ']', s.flags.needComma) && Paid(s) && Token(cfg, text, s.ptr)
    requires At(text, s.ptr) != ']' ==> !s.flags.needComma
    ensures t.ptr <= |text| && Filled(cfg, text, s, t, G.ItemsEnd(cfg, text, s.ptr), ']')
    decreases |text| - s.ptr, 2
  {
    hide Run, Step, After1, G.NextEntry, G.ValueEnd;
    t := s;
    if At(text, s.ptr) != ']' {
      var s1, block := ValueRun(cfg, text, s);
      var v := G.ValueEnd(cfg, text, s.ptr);
      if v.To? {
        AfterInside(s, s1, block, v.end - s.ptr, ']');
        var s2 := NextRun(cfg, text, s1, ']');
        if G.NextEntry(cfg, text, v.end, ']').To? {
          t := ItemsRun(cfg, text, s2);
        }
      }
    }
  }

  lemma AfterInside(s: State, t: State, block: seq<Node>, len: nat, close: char)
    requires Inside(s, close, false) || (close == '}' && Inside(s.(flags := s.flags.(seekValue := false)), close, false))
    requires Ctx(s) && Paid(s) && After1(s, t, block, len) && len > 0
    ensures Behind(t, close) && Paid(t) && Grown(s.nodes, t.nodes, s.top) && t.top == s.top && t.ptr == s.ptr + len
  {
  }

  lemma {:induction false} ValueRun(cfg: Config, text: string, s: State) returns (t: State, block: seq<Node>)
    requires s.ptr <= |text| <= UINT_MAX && Ctx(s) && Token(cfg, text, s.ptr) && !(At(text, s.ptr) == ']' && OpenArray(s))
    ensures var g := G.ValueEnd(cfg, text, s.ptr);
            && t.ptr <= |text| && (g.To? ==> After1(s, t, block, g.end - s.ptr))
            && Run(true, cfg, text, s) == Then(g, Run(true, cfg, text, t))
    decreases |text| - s.ptr, 1
  {
    hide Run, Step, After1, G.Gap, G.ItemsEnd, G.MembersEnd, G.StringEnd, G.NumberEnd, Finish;
    t, block := s, [];
    var c := At(text, s.ptr);
    if c == '{' {
      t, block := ObjectRun(cfg, text, s);
    } else if c == '[' {
      t, block := ArrayRun(cfg, text, s);
    } else if c == '"' {
      t, block := QuoteRun(cfg, text, s);
    } else if G.Word(text, s.ptr, "true") || G.Word(text, s.ptr, "null") || G.Word(text, s.ptr, "false") {
      t, block := WordRun(cfg, text, s);
    } else if G.Digit(c) || c == '-' {
      t, block := FigureRun(cfg, text, s);
    } else {
      NoValue(cfg, text, s);
      RunStep(true, cfg, text, s);
    }
  }

  lemma {:induction false} ObjectRun(cfg: Config, text: string, s: State) returns (t: State, block: seq<Node>)
    requires s.ptr < |text| <= UINT_MAX && Ctx(s) && text[s.ptr] == '{'
    ensures var g := G.ValueEnd(cfg, text, s.ptr);
            && t.ptr <= |text| && (g.To? ==> After1(s, t, block, g.end - s.ptr))
            && Run(true, cfg, text, s) == Then(g, Run(true, cfg, text, t))
    decreases |text| - s.ptr, 0
  {
    hide Run, Step, After1, G.Gap, G.MembersEnd, Finish;
    t, block := s, [];
    var s1 := OpenBracket1(cfg, text, s, KObject);
    GapRun(cfg, text, s1);
    var g := G.Gap(cfg, text, s1.ptr);
    if g.To? {
      var s2 := Past(s1, g);
      var s3 := MembersRun(cfg, text, s2);
      if G.MembersEnd(cfg, text, g.end).To? {
        block := s3.nodes[|s.nodes|..];
        assert s3.nodes == s.nodes + block;
        t := CloseBracket1(cfg, text, s, s3, block);
      }
    }
  }

  /** A name, up to where the value of the member begins. */
  lemma {:induction false} NameRun(cfg: Config, text: string, s: State) returns (t: State)
    requires s.ptr <= |text| <= UINT_MAX && Inside(s, '}', false) && Paid(s) && Token(cfg, text, s.ptr) && At(text, s.ptr) != '}'
    ensures var g := G.NameEnd(cfg, text, s.ptr);
            && t.ptr <= |text| && Run(true, cfg, text, s) == Then(g, Run(true, cfg, text, t))
            && (g.To? ==>
                  && t.ptr == g.end && Token(cfg, text, t.ptr) && t.top == s.top && Ctx(t) && Paid(t)
                  && Inside(t.(flags := t.flags.(seekValue := false)), '}', false) && Grown(s.nodes, t.nodes, s.top))
    decreases |text| - s.ptr, 0
  {
    hide Run, Step, G.Gap, G.StringEnd;
    t := s;
    RunStep(true, cfg, text, s);
    NameStep(cfg, text, s);
    if At(text, s.ptr) == '"' {
      var s1 := s.(ptr := s.ptr + 1, strLen := 0, flags := s.flags.(inString := true));
      var s2 := StringRun(cfg, text, s1);
      if G.StringEnd(text, s1.ptr).To? {
        var s3 := NameClosed(cfg, text, s, s2);
        GapRun(cfg, text, s3);
        var g := G.Gap(cfg, text, s3.ptr);
        if g.To? {
          t := ColonRun(cfg, text, Past(s3, g));
        }
      }
    }
  }

  lemma NameStep(cfg: Config, text: string, s: State)
    requires s.ptr <= |text| && Inside(s, '}', false) && Token(cfg, text, s.ptr) && At(text, s.ptr) != '}'
    ensures Step(true, cfg, text, s) ==
              if At(text, s.ptr) == '"' then Continue(s.(ptr := s.ptr + 1, strLen := 0, flags := s.flags.(inString := true))) else Reject
  {
    hide Finish;
  }

  lemma NameClosed(cfg: Config, text: string, s: State, s2: State) returns (t: State)
    requires s.ptr < s2.ptr < |text| && Inside(s, '}', false) && Paid(s)
    requires s2 == s.(ptr := s2.ptr, strLen := s2.strLen, flags := s.flags.(inString := true)) && Step(true, cfg, text, s2) == CloseString(true, s2)
    ensures t.ptr == s2.ptr + 1 && t.top == s.top && t.alloc == |t.nodes| && Paid(t)
    ensures Grown(s.nodes, t.nodes, s.top) && t.flags == Flags(false, true, false, false, true, false, false, false)
    ensures Run(true, cfg, text, s2) == Run(true, cfg, text, t)
  {
    hide Run, Step, Finish;
    RunStep(true, cfg, text, s2);
    t := CloseString(true, s2).s;
  }

  /** The colon behind a name. */
  lemma {:induction false} ColonRun(cfg: Config, text: string, s: State) returns (t: State)
    requires s.ptr <= |text| && Token(cfg, text, s.ptr) && ValidTop(s) && s.nodes[s.top].kind.KObject?
    requires s.flags == Flags(false, true, false, false, true, false, false, false)
    ensures var g := if At(text, s.ptr) == ':' then G.Gap(cfg, text, s.ptr + 1) else G.Bad;
            && t.ptr <= |text| && Run(true, cfg, text, s) == Then(g, Run(true, cfg, text, t))
            && (g.To? ==> t == s.(ptr := g.end, flags := s.flags.(needColon := false)) && Token(cfg, text, t.ptr))
  {
    hide Run, Step, G.Gap;
    t := s;
    if At(text, s.ptr) == ':' {
      t := ReadColon(true, cfg, text, s);
      GapRun(cfg, text, t);
      t := Past(t, G.Gap(cfg, text, t.ptr));
    } else {
      NoColon(cfg, text, s);
      RunStep(true, cfg, text, s);
    }
  }

  lemma NoColon(cfg: Config, text: string, s: State)
    requires s.ptr <= |text| && Token(cfg, text, s.ptr) && ValidTop(s) && s.nodes[s.top].kind.KObject? && At(text, s.ptr) != ':'
    requires s.flags == Flags(false, true, false, false, true, false, false, false)
    ensures Step(true, cfg, text, s) == Reject
  {
    hide Finish, NewValue, NumberStart, Literal;
  }

  lemma {:induction false} MembersRun(cfg: Config, text: string, s: State) returns (t: State)
    requires s.ptr <= |text| <= UINT_MAX && Inside(s, '}', s.flags.needComma) && Paid(s) && Token(cfg, text, s.ptr)
    requires At(text, s.ptr) != '}' ==> !s.flags.needComma
    ensures t.ptr <= |text| && Filled(cfg, text, s, t, G.MembersEnd(cfg, text, s.ptr), '}')
    decreases |text| - s.ptr, 2
  {
    hide Run, Step, After1, Ctx, G.NextEntry, G.ValueEnd, G.NameEnd;
    t := s;
    if At(text, s.ptr) != '}' {
      var s0 := NameRun(cfg, text, s);
      var k := G.NameEnd(cfg, text, s.ptr);
      if k.To? {
        var s1, block := ValueRun(cfg, text, s0);
        var v := G.ValueEnd(cfg, text, k.end);
        if v.To? {
          AfterInside(s0, s1, block, v.end - k.end, '}');
          var s2 := NextRun(cfg, text, s1, '}');
          if G.NextEntry(cfg, text, v.end, '}').To? {
            t := MembersRun(cfg, text, s2);
          }
        }
      }
    }
  }

  // ----- the whole text -----

  lemma LastStep(cfg: Config, text: string, s: State)
    requires s.ptr <= |text| && Token(cfg, text, s.ptr) && s.flags == Flags(true, false, false, false, false, true, false, false)
    ensures Step(true, cfg, text, s) == if At(text, s.ptr) == '\0' then Accept(s.nodes) else Reject
  {
  }

  /**
   The first pass accepts exactly the texts of the grammar. All others are rejected, but those in which a number
   comes from which the parser does not come back.
   */
  lemma Verdict(cfg: Config, text: string)
    requires |text| <= UINT_MAX
    ensures var r := Run(true, cfg, text, Start([]));
            match G.Document(cfg, text)
            case To(_) => r.Accept?
            case Bad => r == Reject
            case Stuck => r == Hang
  {
    hide Run, Step, G.Gap, G.ValueEnd;
    var s := Start([]);
    GapRun(cfg, text, s);
    var a := G.Gap(cfg, text, 0);
    if a.To? {
      var s1 := Past(s, a);
      var s2, block := ValueRun(cfg, text, s1);
      var v := G.ValueEnd(cfg, text, a.end);
      if v.To? {
        GapRun(cfg, text, s2);
        var b := G.Gap(cfg, text, v.end);
        if b.To? {
          LastStep(cfg, text, Past(s2, b));
          RunStep(true, cfg, text, Past(s2, b));
        }
      }
    }
  }
}
