/** The first pass of src/json.c, on the text of a value, counts exactly what the value holds. */
module JsonFirstReading {
  import opened JsonParser
  import opened JsonReading
  import opened JsonNumbers
  import T = JsonText

  function Count(items: T.Items): nat { if items.NoItems? then 0 else 1 + Count(items.rest) }

  function CountMembers(ms: T.Members): nat { if ms.NoMembers? then 0 else 1 + CountMembers(ms.rest) }

  /** The bytes of the member names, each with its terminator. */
  function NameBytes(ms: T.Members): nat
    requires T.GoodMembers(ms)
  {
    if ms.NoMembers? then 0 else |T.Bytes(false, ms.key)| + 1 + NameBytes(ms.rest)
  }

  /** The nodes of a value, its own first, when `at` is the index of that one. */
  function Skel(v: T.Value, parent: int, at: nat): (nodes: seq<Node>)
    requires T.Good(v)
    ensures nodes != [] && nodes[0].parent == parent
  {
    match v
    case Null => [FreshNode(KNull, parent)]
    case True => [FreshNode(KBoolean, parent).(boolean := true)]
    case False => [FreshNode(KBoolean, parent)]
    case Number(n) => [NumeralNode(n, parent)]
    case Text(es) => [FreshNode(KString, parent).(length := |T.Bytes(false, es)|)]
    case Array(_, items) => [FreshNode(KArray, parent).(length := Count(items))] + SkelItems(items, at, at + 1)
    case Object(_, ms) =>
      [FreshNode(KObject, parent).(length := CountMembers(ms), names := NameBytes(ms))] + SkelMembers(ms, at, at + 1)
  }

  function SkelItems(items: T.Items, parent: int, at: nat): seq<Node>
    requires T.GoodItems(items)
  {
    if items.NoItems? then [] else
    var first := Skel(items.value, parent, at);
    first + SkelItems(items.rest, parent, at + |first|)
  }

  function SkelMembers(ms: T.Members, parent: int, at: nat): seq<Node>
    requires T.GoodMembers(ms)
  {
    if ms.NoMembers? then [] else
    var first := Skel(ms.value, parent, at);
    first + SkelMembers(ms.rest, parent, at + |first|)
  }

  // ----- where a value is read -----

  /** A value is about to be read into the container at `top`, or as the root. */
  predicate Ctx(s: State) {
    && s.alloc == |s.nodes| && AtValue(s)
    && ((s.top == NONE && s.nodes == []) || (ValidTop(s) && IsContainer(s.nodes[s.top].kind) && s.nodes[s.top].length < UINT_MAX))
  }

  function AfterFlags(s: State): Flags {
    if s.top == NONE then Flags(true, false, false, false, false, true, false, false)
    else Flags(true, ValidTop(s) && s.nodes[s.top].kind.KArray?, false, false, false, false, false, false)
  }

  /** The container counts one value more. */
  function Bump(nodes: seq<Node>, top: int): (r: seq<Node>)
    ensures |r| == |nodes|
  {
    if 0 <= top < |nodes| then nodes[top := nodes[top].(length := nodes[top].length + 1)] else nodes
  }

  /** `t` is the state after a value of nodes `block` has been read from state `s`. */
  predicate After1(s: State, t: State, block: seq<Node>, len: nat) {
    && t.ptr == s.ptr + len && t.flags == AfterFlags(s)
    && t.top == (if s.top == NONE then 0 else s.top)
    && t.nodes == Bump(s.nodes, s.top) + block && t.alloc == |t.nodes|
  }

  lemma Close1(s: State, leaf: State, block: seq<Node>)
    requires Ctx(s) && block != [] && block[0].parent == s.top
    requires leaf.nodes == s.nodes + block && leaf.top == |s.nodes| && leaf.alloc == |leaf.nodes| && leaf.ptr >= s.ptr
    requires leaf.flags == Flags(leaf.flags.needComma, false, false, false, false, false, false, false)
    ensures var r := Finish(true, leaf); r.Continue? && After1(s, r.s, block, leaf.ptr - s.ptr)
  {
    assert leaf.nodes[leaf.top] == block[0];
    if s.top != NONE {
      assert leaf.nodes[s.top] == s.nodes[s.top];
      var n := s.nodes[s.top].(length := s.nodes[s.top].length + 1);
      assert (s.nodes + block)[s.top := n] == s.nodes[s.top := n] + block;
    }
  }

  lemma ReadLiteral1(cfg: Config, text: string, s: State, word: string, kind: Kind, truth: bool)
    returns (t: State)
    requires s.ptr <= |text| && Ctx(s) && Here(text, s.ptr, word)
    requires (word == "true" && kind == KBoolean && truth) || (word == "false" && kind == KBoolean && !truth) || (word == "null" && kind == KNull && !truth)
    ensures After1(s, t, [FreshNode(kind, s.top).(boolean := truth)], |word|)
    ensures t.ptr <= |text| && Run(true, cfg, text, s) == Run(true, cfg, text, t)
  {
    hide Run, Finish;
    var v := NewValue(true, cfg, s.(flags := s.flags.(seekValue := false)), kind).s;
    var n := FreshNode(kind, s.top).(boolean := truth);
    var leaf := SetTop(v, n).(ptr := s.ptr + |word|);
    assert leaf.nodes == s.nodes + [n];
    Close1(s, leaf, [n]);
    t := Finish(true, leaf).s;
    RunStep(true, cfg, text, s);
    LiteralStep(true, cfg, text, s, word, kind, truth);
  }

  lemma LiteralStep(first: bool, cfg: Config, text: string, s: State, word: string, kind: Kind, truth: bool)
    requires s.ptr <= |text| && AtValue(s) && Here(text, s.ptr, word)
    requires (word == "true" && kind == KBoolean && truth) || (word == "false" && kind == KBoolean && !truth) || (word == "null" && kind == KNull && !truth)
    ensures Word(text, s.ptr, word)
    ensures Step(first, cfg, text, s) == Literal(first, cfg, text, s.(flags := s.flags.(seekValue := false)), word, kind, truth)
  {
    hide Literal, NumberStart, NewValue, Finish;
    HereAt(text, s.ptr, word, 0);
    forall k | 0 <= k < |word|
      ensures At(text, s.ptr + k) == word[k]
    {
      HereAt(text, s.ptr, word, k);
    }
  }

  /** The characters of a string and its closing quote, when no more than UINT_MAX bytes are read. */
  lemma ReadToQuote1(cfg: Config, text: string, s: State, es: seq<T.Elem>) returns (t: State)
    requires s.ptr <= |text| && s.flags.inString && !s.flags.escaped && s.strLen == 0 && T.GoodElems(es)
    requires Here(text, s.ptr, T.ElemsText(es) + "\"") && |T.Bytes(false, es)| <= UINT_MAX
    ensures t == s.(ptr := s.ptr + |T.ElemsText(es)|, strLen := |T.Bytes(false, es)|) && t.ptr < |text|
    ensures Run(true, cfg, text, s) == Run(true, cfg, text, t) && Step(true, cfg, text, t) == CloseString(true, t)
  {
    hide Run, Finish, T.ElemsText, T.Bytes;
    HereSplit(text, s.ptr, T.ElemsText(es), "\"");
    ReadChars(true, cfg, text, s, es);
    t := s.(ptr := s.ptr + |T.ElemsText(es)|, strLen := |T.Bytes(false, es)|);
    HereAt(text, t.ptr, "\"", 0);
  }

  lemma ReadString1(cfg: Config, text: string, s: State, es: seq<T.Elem>) returns (t: State)
    requires s.ptr <= |text| && Ctx(s) && T.GoodElems(es) && Here(text, s.ptr, T.Quoted(es))
    requires |T.Bytes(false, es)| <= UINT_MAX
    ensures After1(s, t, [FreshNode(KString, s.top).(length := |T.Bytes(false, es)|)], |T.Quoted(es)|)
    ensures t.ptr <= |text| && Run(true, cfg, text, s) == Run(true, cfg, text, t)
  {
    hide Run, Finish, T.ElemsText, T.Bytes;
    assert T.Quoted(es) == "\"" + (T.ElemsText(es) + "\"");
    HereSplit(text, s.ptr, "\"", T.ElemsText(es) + "\"");
    var s1 := OpenQuote1(cfg, text, s);
    var s2 := ReadToQuote1(cfg, text, s1, es);
    var n := FreshNode(KString, s.top).(length := |T.Bytes(false, es)|);
    var leaf := SetTop(s2, n).(ptr := s2.ptr + 1, flags := s.flags.(seekValue := false));
    assert leaf.nodes == s.nodes + [n];
    Close1(s, leaf, [n]);
    RunStep(true, cfg, text, s2);
    t := Finish(true, leaf).s;
  }

  lemma OpenQuote1(cfg: Config, text: string, s: State) returns (t: State)
    requires s.ptr <= |text| && Ctx(s) && Here(text, s.ptr, "\"")
    ensures t == State(s.ptr + 1, |s.nodes|, s.nodes + [FreshNode(KString, s.top)], |s.nodes| + 1,
                       s.flags.(seekValue := false, inString := true), s.num, 0)
    ensures t.ptr <= |text| && Run(true, cfg, text, s) == Run(true, cfg, text, t)
  {
    hide Run, Finish, Literal, NumberStart;
    HereAt(text, s.ptr, "\"", 0);
    RunStep(true, cfg, text, s);
    t := Step(true, cfg, text, s).s;
  }

  /** Inside an object, between members. */
  predicate InObject(s: State) {
    && s.alloc == |s.nodes| && ValidTop(s) && s.nodes[s.top].kind.KObject?
    && s.flags == Flags(false, false, false, false, false, false, false, false)
  }

  lemma ReadKey1(cfg: Config, text: string, s: State, es: seq<T.Elem>) returns (t: State)
    requires s.ptr <= |text| && InObject(s) && T.GoodElems(es) && Here(text, s.ptr, T.Quoted(es))
    requires |T.Bytes(false, es)| <= UINT_MAX
    ensures t.ptr == s.ptr + |T.Quoted(es)| <= |text| && t.top == s.top && t.alloc == s.alloc
    ensures t.flags == Flags(false, true, false, false, true, false, false, false)
    ensures var n := s.nodes[s.top]; t.nodes == s.nodes[s.top := n.(names := n.names + |T.Bytes(false, es)| + 1)]
    ensures Run(true, cfg, text, s) == Run(true, cfg, text, t)
  {
    hide Run, Finish, T.ElemsText, T.Bytes;
    assert T.Quoted(es) == "\"" + (T.ElemsText(es) + "\"");
    HereSplit(text, s.ptr, "\"", T.ElemsText(es) + "\"");
    HereAt(text, s.ptr, "\"", 0);
    var s1 := s.(ptr := s.ptr + 1, strLen := 0, flags := s.flags.(inString := true));
    assert Step(true, cfg, text, s) == Continue(s1);
    RunStep(true, cfg, text, s);
    var s2 := ReadToQuote1(cfg, text, s1, es);
    RunStep(true, cfg, text, s2);
    t := CloseString(true, s2).s;
  }

  /** One of the characters , and : between values, or an opening bracket. */
  lemma ReadComma(first: bool, cfg: Config, text: string, s: State) returns (t: State)
    requires s.ptr < |text| && text[s.ptr] == ',' && Between(s) && s.flags.needComma && !s.flags.done && !s.flags.needColon
    ensures t == s.(ptr := s.ptr + 1, flags := s.flags.(needComma := false))
    ensures Run(first, cfg, text, s) == Run(first, cfg, text, t)
  {
    hide Run, Finish, Literal, NumberStart, NewValue;
    RunStep(first, cfg, text, s);
    t := s.(ptr := s.ptr + 1, flags := s.flags.(needComma := false));
  }

  lemma ReadColon(first: bool, cfg: Config, text: string, s: State) returns (t: State)
    requires s.ptr < |text| && text[s.ptr] == ':' && s.flags == Flags(false, true, false, false, true, false, false, false)
    ensures t == s.(ptr := s.ptr + 1, flags := s.flags.(needColon := false))
    ensures Run(first, cfg, text, s) == Run(first, cfg, text, t)
  {
    hide Run, Finish, Literal, NumberStart, NewValue;
    RunStep(first, cfg, text, s);
    t := s.(ptr := s.ptr + 1, flags := s.flags.(needColon := false));
  }

  lemma {:induction false} BytesFit(es: seq<T.Elem>)
    requires T.GoodElems(es)
    ensures |T.Bytes(false, es)| <= |T.ElemsText(es)|
    decreases |es|
  {
    if es != [] {
      assert |T.ElemBytes(false, es[0])| <= |T.ElemText(es[0])| by { ElemFits(es[0]); }
      BytesFit(es[1..]);
    }
  }

  lemma {:induction false} ElemFits(e: T.Elem)
    requires T.GoodElem(e)
    ensures |T.ElemBytes(false, e)| <= |T.ElemText(e)|
  {
    hide Utf8, CodeAt, PairCode;
  }

  // ----- containers -----

  lemma OpenBracket1(cfg: Config, text: string, s: State, kind: Kind) returns (t: State)
    requires s.ptr < |text| && Ctx(s) && ((kind == KArray && text[s.ptr] == '[') || (kind == KObject && text[s.ptr] == '{'))
    ensures t.ptr == s.ptr + 1 && t.top == |s.nodes| && t.alloc == |t.nodes| && t.nodes == s.nodes + [FreshNode(kind, s.top)]
    ensures t.flags == s.flags.(seekValue := kind == KArray)
    ensures Run(true, cfg, text, s) == Run(true, cfg, text, t)
  {
    hide Run, Finish, Literal, NumberStart;
    RunStep(true, cfg, text, s);
    t := Step(true, cfg, text, s).s;
  }

  /** At a closing bracket the container, with all its nodes `block`, is complete. */
  lemma CloseBracket1(cfg: Config, text: string, s0: State, s: State, block: seq<Node>) returns (t: State)
    requires s.ptr < |text| && Ctx(s0) && s0.ptr <= s.ptr && s.nodes == s0.nodes + block && block != []
    requires block[0].parent == s0.top && s.top == |s0.nodes| && s.alloc == |s.nodes|
    requires (block[0].kind == KArray && text[s.ptr] == ']' && s.flags == Flags(s.flags.needComma, true, false, false, false, false, false, false))
          || (block[0].kind == KObject && text[s.ptr] == '}' && s.flags == Flags(s.flags.needComma, false, false, false, false, false, false, false))
    ensures After1(s0, t, block, s.ptr + 1 - s0.ptr)
    ensures t.ptr <= |text| && Run(true, cfg, text, s) == Run(true, cfg, text, t)
  {
    hide Run, Finish, Literal, NumberStart, NewValue;
    assert s.nodes[s.top] == block[0];
    var leaf := s.(ptr := s.ptr + 1, flags := s.flags.(needComma := false, seekValue := false));
    Close1(s0, leaf, block);
    RunStep(true, cfg, text, s);
    assert Step(true, cfg, text, s) == Finish(true, leaf);
    t := Finish(true, leaf).s;
  }

  /** What follows a value inside a container. */
  function Rest(post: string, more: string): string { post + (if more == "" then "" else "," + more) }

  lemma RestEnds(text: string, i: nat, post: string, more: string)
    requires Here(text, i, Rest(post, more)) && T.IsGap(post) && Ends(At(text, i + |Rest(post, more)|))
    ensures Ends(At(text, i))
  {
    var w := Rest(post, more);
    if w != "" { HereAt(text, i, w, 0); }
  }

  /** White space around and a comma after a value, then the state for the next value, if there is one. */
  lemma ReadRest(first: bool, cfg: Config, text: string, s: State, post: string, more: string) returns (t: State)
    requires s.ptr <= |text| && Here(text, s.ptr, Rest(post, more)) && T.IsGap(post)
    requires s.flags == Flags(true, s.flags.seekValue, false, false, false, false, false, false)
    requires s.flags.seekValue || (ValidTop(s) && s.nodes[s.top].kind.KObject?)
    ensures t == if more == "" then s.(ptr := s.ptr + |post|) else s.(ptr := s.ptr + |post| + 1, flags := s.flags.(needComma := false))
    ensures t.ptr <= |text| && Here(text, t.ptr, more)
    ensures Run(first, cfg, text, s) == Run(first, cfg, text, t)
  {
    hide Run;
    var tail := if more == "" then "" else "," + more;
    HereSplit(text, s.ptr, post, tail);
    ReadGap(first, cfg, text, s, post);
    t := s.(ptr := s.ptr + |post|);
    if more != "" {
      HereSplit(text, t.ptr, ",", more);
      HereAt(text, t.ptr, ",", 0);
      t := ReadComma(first, cfg, text, t);
    }
  }

  predicate InArray(s: State) {
    s.alloc == |s.nodes| && ValidTop(s) && s.nodes[s.top].kind.KArray? && AtValue(s)
  }

  function More(items: T.Items): string
    requires T.GoodItems(items)
  {
    if items.NoItems? then "" else T.ItemsText(items)
  }

  function MoreMembers(ms: T.Members): string
    requires T.GoodMembers(ms)
  {
    if ms.NoMembers? then "" else T.MembersText(ms)
  }

  /** The outcome, unless the first pass is kept from coming back before. */
  function Unless(stuck: bool, r: Outcome): Outcome { if stuck then Hang else r }

  lemma {:induction false} ReadValue1(cfg: Config, text: string, s: State, v: T.Value) returns (t: State)
    requires |text| <= UINT_MAX && s.ptr <= |text| && Ctx(s) && T.Good(v)
    requires Here(text, s.ptr, T.ValueText(v)) && (v.Number? ==> Stops(cfg, At(text, s.ptr + |T.ValueText(v)|)))
    ensures After1(s, t, Skel(v, s.top, |s.nodes|), |T.ValueText(v)|)
    ensures t.ptr <= |text| && Run(true, cfg, text, s) == Unless(!T.Tame(v), Run(true, cfg, text, t))
    decreases v
  {
    hide Run, Finish, After1, T.Magnitude, T.ElemsText, T.Bytes, Ctx, T.NumeralText, NumeralNode, T.TameNumeral;
    match v
    case Null => t := ReadLiteral1(cfg, text, s, "null", KNull, false);
    case True => t := ReadLiteral1(cfg, text, s, "true", KBoolean, true);
    case False => t := ReadLiteral1(cfg, text, s, "false", KBoolean, false);
    case Number(n) => t := ReadNumeral1(cfg, text, s, n);
    case Text(es) =>
      BytesFit(es);
      t := ReadString1(cfg, text, s, es);
    case Array(gap, items) => t := ReadArray1(cfg, text, s, gap, items);
    case Object(gap, ms) => t := ReadObject1(cfg, text, s, gap, ms);
  }

  lemma ReadNumeral1(cfg: Config, text: string, s: State, n: T.Numeral) returns (t: State)
    requires s.ptr <= |text| && Ctx(s) && T.GoodNumeral(n) && Here(text, s.ptr, T.NumeralText(n))
    requires Stops(cfg, At(text, s.ptr + |T.NumeralText(n)|))
    ensures After1(s, t, [NumeralNode(n, s.top)], |T.NumeralText(n)|)
    ensures t.ptr <= |text| && Run(true, cfg, text, s) == Unless(!T.TameNumeral(n), Run(true, cfg, text, t))
  {
    hide Run, Finish, T.Magnitude, NumeralNode, T.NumeralText, T.TameNumeral;
    var leaf := ReadNumber1(cfg, text, s, n);
    Close1(s, leaf, [leaf.nodes[|s.nodes|]]);
    t := Finish(true, leaf).s;
  }

  lemma {:induction false} ReadArray1(cfg: Config, text: string, s: State, gap: string, items: T.Items) returns (t: State)
    requires |text| <= UINT_MAX && s.ptr <= |text| && Ctx(s) && T.Good(T.Array(gap, items))
    requires Here(text, s.ptr, T.ValueText(T.Array(gap, items)))
    ensures After1(s, t, Skel(T.Array(gap, items), s.top, |s.nodes|), |T.ValueText(T.Array(gap, items))|)
    ensures t.ptr <= |text| && Run(true, cfg, text, s) == Unless(!T.TameItems(items), Run(true, cfg, text, t))
    decreases items, 1
  {
    hide Run, Finish, After1, T.ValueText, T.ItemsText, SkelItems, Here, Step, T.TameItems;
    ArrayHere(text, s.ptr, gap, items);
    var s1 := OpenBracket1(cfg, text, s, KArray);
    var block := Skel(T.Array(gap, items), s.top, |s.nodes|);
    var s2;
    NoNodes(|s.nodes|, |s.nodes| + 1);
    if items.NoItems? {
      ReadGap(true, cfg, text, s1, gap);
      s2 := s1.(ptr := s1.ptr + |gap|);
    } else {
      s2 := ReadItems1(cfg, text, s1, items);
    }
    assert s2.nodes == s.nodes + block;
    t := CloseBracket1(cfg, text, s, s2, block);
  }

  lemma BracketsHere(text: string, i: nat, open: string, body: string, close: string)
    requires Here(text, i, open + body + close) && |open| == |close| == 1
    ensures i + |body| + 2 <= |text| && text[i] == open[0] && Here(text, i + 1, body) && text[i + 1 + |body|] == close[0]
  {
    HereSplit(text, i, open + body, close);
    HereSplit(text, i, open, body);
    HereAt(text, i, open, 0);
    HereAt(text, i + 1 + |body|, close, 0);
  }

  lemma {:induction false} ArrayHere(text: string, i: nat, gap: string, items: T.Items)
    requires T.Good(T.Array(gap, items)) && Here(text, i, T.ValueText(T.Array(gap, items)))
    ensures var body := if items.NoItems? then gap else T.ItemsText(items);
            && |T.ValueText(T.Array(gap, items))| == |body| + 2 && i + |body| + 2 <= |text|
            && text[i] == '[' && Here(text, i + 1, body) && text[i + 1 + |body|] == ']'
  {
    hide T.ItemsText, Here;
    BracketsHere(text, i, "[", if items.NoItems? then gap else T.ItemsText(items), "]");
  }

  lemma {:induction false} ObjectHere(text: string, i: nat, gap: string, ms: T.Members)
    requires T.Good(T.Object(gap, ms)) && Here(text, i, T.ValueText(T.Object(gap, ms)))
    ensures var body := if ms.NoMembers? then gap else T.MembersText(ms);
            && |T.ValueText(T.Object(gap, ms))| == |body| + 2 && i + |body| + 2 <= |text|
            && text[i] == '{' && Here(text, i + 1, body) && text[i + 1 + |body|] == '}'
  {
    hide T.MembersText, Here;
    BracketsHere(text, i, "{", if ms.NoMembers? then gap else T.MembersText(ms), "}");
  }

  lemma {:induction false} NoNodes(k: int, at: nat)
    ensures SkelItems(T.NoItems, k, at) == [] && SkelMembers(T.NoMembers, k, at) == []
    ensures T.TameItems(T.NoItems) && T.TameMembers(T.NoMembers)
  {
  }

  lemma {:induction false} ReadItems1(cfg: Config, text: string, s: State, items: T.Items) returns (t: State)
    requires |text| <= UINT_MAX && s.ptr <= |text| && InArray(s) && items.Item? && T.GoodItems(items)
    requires s.nodes[s.top].length + |T.ItemsText(items)| <= UINT_MAX
    requires Here(text, s.ptr, T.ItemsText(items)) && Ends(At(text, s.ptr + |T.ItemsText(items)|))
    ensures t.ptr == s.ptr + |T.ItemsText(items)| <= |text| && t.top == s.top && t.alloc == |t.nodes|
    ensures t.flags == Flags(true, true, false, false, false, false, false, false)
    ensures var n := s.nodes[s.top];
            t.nodes == s.nodes[s.top := n.(length := n.length + Count(items))] + SkelItems(items, s.top, |s.nodes|)
    ensures Run(true, cfg, text, s) == Unless(!T.TameItems(items), Run(true, cfg, text, t))
    decreases items, 0
  {
    hide Run, Finish, Step, Here, T.ValueText, T.ItemsText, SkelItems, Skel, T.Tame;
    var more := More(items.rest);
    ItemsHere(text, s.ptr, items);
    ReadGap(true, cfg, text, s, items.pre);
    var s1 := s.(ptr := s.ptr + |items.pre|);
    var s2 := ReadValue1(cfg, text, s1, items.value);
    var s3 := ReadRest(true, cfg, text, s2, items.post, more);
    if items.rest.NoItems? {
      t := s3;
    } else {
      t := ReadItems1(cfg, text, s3, items.rest);
    }
    ItemsNodes(s.nodes, s.top, items, s3.nodes, t.nodes);
  }

  /** Where the parts of a list of items stand. */
  lemma {:induction false} ItemsHere(text: string, i: nat, items: T.Items)
    requires items.Item? && T.GoodItems(items)
    requires Here(text, i, T.ItemsText(items)) && Ends(At(text, i + |T.ItemsText(items)|))
    ensures var w, rest := T.ValueText(items.value), Rest(items.post, More(items.rest));
            && |T.ItemsText(items)| == |items.pre| + |w| + |rest| && w != ""
            && i + |T.ItemsText(items)| <= |text|
            && Here(text, i, items.pre) && Here(text, i + |items.pre|, w) && Here(text, i + |items.pre| + |w|, rest)
            && Ends(At(text, i + |items.pre| + |w|))
    ensures items.rest.NoItems? <==> More(items.rest) == ""
  {
    hide T.ValueText, T.ItemsText, Here, Rest, More;
    var w, rest := T.ValueText(items.value), Rest(items.post, More(items.rest));
    ItemsParts(items);
    HereFits(text, i, T.ItemsText(items));
    HereSplit(text, i, items.pre, w + rest);
    HereSplit(text, i + |items.pre|, w, rest);
    RestEnds(text, i + |items.pre| + |w|, items.post, More(items.rest));
  }

  lemma {:induction false} ItemsParts(items: T.Items)
    requires items.Item? && T.GoodItems(items)
    ensures T.ItemsText(items) == items.pre + (T.ValueText(items.value) + Rest(items.post, More(items.rest)))
    ensures items.rest.NoItems? <==> More(items.rest) == ""
  {
    hide T.ValueText;
  }

  lemma {:induction false} SkelParts(items: T.Items, ms: T.Members, parent: int, at: nat)
    requires T.GoodItems(items) && T.GoodMembers(ms)
    ensures items.Item? ==> var first := Skel(items.value, parent, at);
              SkelItems(items, parent, at) == first + SkelItems(items.rest, parent, at + |first|)
    ensures ms.Member? ==> var first := Skel(ms.value, parent, at);
              SkelMembers(ms, parent, at) == first + SkelMembers(ms.rest, parent, at + |first|)
  {
    hide Skel;
  }

  /** Two updates of one entry, with nodes added after each. */
  lemma {:induction false} Compose(nodes: seq<Node>, k: int, n1: Node, n2: Node, first: seq<Node>, rest: seq<Node>)
    requires 0 <= k < |nodes|
    ensures var mid := nodes[k := n1] + first;
            mid[k] == n1 && mid[k := n2] + rest == nodes[k := n2] + (first + rest)
  {
  }

  lemma {:induction false} ItemsNodes(nodes: seq<Node>, k: int, items: T.Items, mid: seq<Node>, end: seq<Node>)
    requires 0 <= k < |nodes| && items.Item? && T.GoodItems(items)
    requires mid == Bump(nodes, k) + Skel(items.value, k, |nodes|)
    requires end == if items.rest.NoItems? then mid
                    else mid[k := mid[k].(length := mid[k].length + Count(items.rest))] + SkelItems(items.rest, k, |mid|)
    ensures end == nodes[k := nodes[k].(length := nodes[k].length + Count(items))] + SkelItems(items, k, |nodes|)
  {
    hide Skel, SkelItems;
    SkelParts(items, T.NoMembers, k, |nodes|);
    var n1 := nodes[k].(length := nodes[k].length + 1);
    var n2 := nodes[k].(length := nodes[k].length + Count(items));
    var first, rest := Skel(items.value, k, |nodes|), SkelItems(items.rest, k, |mid|);
    if items.rest.NoItems? {
      NoNodes(k, |mid|);
      assert n1 == n2 && first + [] == first;
    } else {
      Compose(nodes, k, n1, n2, first, rest);
    }
  }

  lemma {:induction false} ReadObject1(cfg: Config, text: string, s: State, gap: string, ms: T.Members) returns (t: State)
    requires |text| <= UINT_MAX && s.ptr <= |text| && Ctx(s) && T.Good(T.Object(gap, ms))
    requires Here(text, s.ptr, T.ValueText(T.Object(gap, ms)))
    ensures After1(s, t, Skel(T.Object(gap, ms), s.top, |s.nodes|), |T.ValueText(T.Object(gap, ms))|)
    ensures t.ptr <= |text| && Run(true, cfg, text, s) == Unless(!T.TameMembers(ms), Run(true, cfg, text, t))
    decreases ms, 3
  {
    hide Run, Finish, After1, T.ValueText, T.MembersText, SkelMembers, Here, Step, T.TameMembers, Skel;
    ObjectHere(text, s.ptr, gap, ms);
    var s1 := OpenBracket1(cfg, text, s, KObject);
    var s2 := ReadBody1(cfg, text, s, s1, gap, ms);
    t := CloseBracket1(cfg, text, s, s2, Skel(T.Object(gap, ms), s.top, |s.nodes|));
  }

  lemma {:induction false} ReadBody1(cfg: Config, text: string, s: State, s1: State, gap: string, ms: T.Members) returns (t: State)
    requires |text| <= UINT_MAX && s1.ptr <= |text| && s1.top == |s.nodes| && s1.alloc == |s1.nodes| && T.Good(T.Object(gap, ms))
    requires s1.nodes == s.nodes + [FreshNode(KObject, s.top)] && s1.flags == Flags(false, false, false, false, false, false, false, false)
    requires var body := if ms.NoMembers? then gap else T.MembersText(ms);
             s1.ptr + |body| < |text| && Here(text, s1.ptr, body) && text[s1.ptr + |body|] == '}'
    ensures var body := if ms.NoMembers? then gap else T.MembersText(ms); t.ptr == s1.ptr + |body| < |text|
    ensures t.top == s1.top && t.alloc == |t.nodes| && t.flags == Flags(t.flags.needComma, false, false, false, false, false, false, false)
    ensures var block := Skel(T.Object(gap, ms), s.top, |s.nodes|); t.nodes == s.nodes + block && block[0].kind == KObject
    ensures Run(true, cfg, text, s1) == Unless(!T.TameMembers(ms), Run(true, cfg, text, t))
    decreases ms, 2
  {
    hide Run, Finish, T.ValueText, T.MembersText, SkelMembers, Here, Step, T.TameMembers, Skel, CountMembers, NameBytes, FreshNode;
    ObjectNodes(s.nodes, s.top, s1.nodes, gap, ms);
    var block := Skel(T.Object(gap, ms), s.top, |s.nodes|);
    if ms.NoMembers? {
      NoNodes(|s.nodes|, |s1.nodes|);
      ReadGap(true, cfg, text, s1, gap);
      t := s1.(ptr := s1.ptr + |gap|);
      assert t.nodes == s.nodes + block;
    } else {
      assert InObject(s1) && s1.nodes[s1.top].length == 0;
      t := ReadMembers1(cfg, text, s1, ms);
      assert t.nodes == s.nodes + block;
    }
  }

  /** An object's node with its counts, and the nodes of its members. */
  lemma {:induction false} ObjectNodes(nodes: seq<Node>, parent: int, open: seq<Node>, gap: string, ms: T.Members)
    requires T.Good(T.Object(gap, ms)) && open == nodes + [FreshNode(KObject, parent)]
    ensures var k := |nodes|;
            var n := open[k];
            var block := Skel(T.Object(gap, ms), parent, k);
            && n.kind == KObject && n.length == 0 && block[0].kind == KObject && block[0].parent == parent
            && (ms.NoMembers? ==> open == nodes + block)
            && open[k := n.(length := n.length + CountMembers(ms), names := n.names + NameBytes(ms))]
                 + SkelMembers(ms, k, |open|) == nodes + block
  {
    hide SkelMembers, T.Bytes;
    NoNodes(|nodes|, |nodes| + 1);
  }

  lemma {:induction false} ReadMembers1(cfg: Config, text: string, s: State, ms: T.Members) returns (t: State)
    requires |text| <= UINT_MAX && s.ptr <= |text| && InObject(s) && ms.Member? && T.GoodMembers(ms)
    requires s.nodes[s.top].length + |T.MembersText(ms)| <= UINT_MAX
    requires Here(text, s.ptr, T.MembersText(ms)) && Ends(At(text, s.ptr + |T.MembersText(ms)|))
    ensures t.ptr == s.ptr + |T.MembersText(ms)| <= |text| && t.top == s.top && t.alloc == |t.nodes|
    ensures t.flags == Flags(true, false, false, false, false, false, false, false)
    ensures var n := s.nodes[s.top];
            t.nodes == s.nodes[s.top := n.(length := n.length + CountMembers(ms), names := n.names + NameBytes(ms))]
                       + SkelMembers(ms, s.top, |s.nodes|)
    ensures Run(true, cfg, text, s) == Unless(!T.TameMembers(ms), Run(true, cfg, text, t))
    decreases ms, 1
  {
    hide Run, Finish, Step, Here, T.ValueText, T.MembersText, T.Quoted, T.Bytes, Skel, SkelMembers, T.Tame;
    var named, s7 := ReadMember1(cfg, text, s, ms);
    if ms.rest.NoMembers? {
      t := s7;
    } else {
      t := ReadMembers1(cfg, text, s7, ms.rest);
    }
    MembersNodes(s.nodes, s.top, ms, named, s7.nodes, t.nodes);
  }

  /** One member, with what separates it from the next; `named` are the nodes once its name has been counted. */
  lemma {:induction false} ReadMember1(cfg: Config, text: string, s: State, ms: T.Members) returns (named: seq<Node>, t: State)
    requires |text| <= UINT_MAX && s.ptr <= |text| && InObject(s) && ms.Member? && T.GoodMembers(ms)
    requires s.nodes[s.top].length + |T.MembersText(ms)| <= UINT_MAX
    requires Here(text, s.ptr, T.MembersText(ms)) && Ends(At(text, s.ptr + |T.MembersText(ms)|))
    ensures named == s.nodes[s.top := s.nodes[s.top].(names := s.nodes[s.top].names + |T.Bytes(false, ms.key)| + 1)]
    ensures t.nodes == Bump(named, s.top) + Skel(ms.value, s.top, |s.nodes|)
    ensures t.ptr <= |text| && t.top == s.top && t.alloc == |t.nodes|
    ensures if ms.rest.NoMembers? then
              t.ptr == s.ptr + |T.MembersText(ms)| && t.flags == Flags(true, false, false, false, false, false, false, false)
            else
              && t.ptr + |T.MembersText(ms.rest)| == s.ptr + |T.MembersText(ms)| && Here(text, t.ptr, T.MembersText(ms.rest))
              && t.flags == Flags(false, false, false, false, false, false, false, false)
              && s.nodes[s.top].length + 1 + |T.MembersText(ms.rest)| <= UINT_MAX
    ensures Run(true, cfg, text, s) == Unless(!T.Tame(ms.value), Run(true, cfg, text, t))
    decreases ms, 0
  {
    hide Run, Finish, Step, Here, T.ValueText, T.MembersText, T.Quoted, T.Bytes, Skel, SkelMembers, T.Tame;
    MembersHere(text, s.ptr, ms);
    ReadGap(true, cfg, text, s, ms.pre);
    var s1 := s.(ptr := s.ptr + |ms.pre|);
    var s2 := ReadKey1(cfg, text, s1, ms.key);
    var s5 := ReadToValue(true, cfg, text, s2, ms.colonPre, ms.colonPost);
    var s6 := ReadValue1(cfg, text, s5, ms.value);
    named := s2.nodes;
    t := ReadRest(true, cfg, text, s6, ms.post, MoreMembers(ms.rest));
  }

  /** From a name to its value: the colon, and the white space around it. */
  lemma ReadToValue(first: bool, cfg: Config, text: string, s: State, pre: string, post: string) returns (t: State)
    requires s.ptr <= |text| && Here(text, s.ptr, pre + (":" + post)) && T.IsGap(pre) && T.IsGap(post)
    requires s.flags == Flags(false, true, false, false, true, false, false, false)
    ensures t == s.(ptr := s.ptr + |pre| + 1 + |post|, flags := s.flags.(needColon := false)) && t.ptr <= |text|
    ensures Run(first, cfg, text, s) == Run(first, cfg, text, t)
  {
    hide Run, Step, Here;
    HereSplit(text, s.ptr, pre, ":" + post);
    ReadGap(first, cfg, text, s, pre);
    HereSplit(text, s.ptr + |pre|, ":", post);
    HereAt(text, s.ptr + |pre|, ":", 0);
    var s1 := ReadColon(first, cfg, text, s.(ptr := s.ptr + |pre|));
    ReadGap(first, cfg, text, s1, post);
    t := s1.(ptr := s1.ptr + |post|);
  }

  /** Where the parts of a list of members stand. */
  lemma {:induction false} MembersHere(text: string, i: nat, ms: T.Members)
    requires ms.Member? && T.GoodMembers(ms)
    requires Here(text, i, T.MembersText(ms)) && Ends(At(text, i + |T.MembersText(ms)|))
    ensures var q, colon, w, rest :=
              T.Quoted(ms.key), ms.colonPre + (":" + ms.colonPost), T.ValueText(ms.value), Rest(ms.post, MoreMembers(ms.rest));
            var j := i + |ms.pre|;
            && |T.MembersText(ms)| == |ms.pre| + |q| + |colon| + |w| + |rest|
            && |colon| == |ms.colonPre| + 1 + |ms.colonPost| && |T.Bytes(false, ms.key)| <= |q|
            && i + |T.MembersText(ms)| <= |text|
            && Here(text, i, ms.pre) && Here(text, j, q) && Here(text, j + |q|, colon)
            && Here(text, j + |q| + |colon|, w) && Here(text, j + |q| + |colon| + |w|, rest)
            && Ends(At(text, j + |q| + |colon| + |w|))
    ensures ms.rest.NoMembers? <==> MoreMembers(ms.rest) == ""
  {
    hide T.ValueText, T.MembersText, T.Quoted, Here, Rest, MoreMembers, T.Bytes;
    var q, colon, w, rest := T.Quoted(ms.key), ms.colonPre + (":" + ms.colonPost), T.ValueText(ms.value), Rest(ms.post, MoreMembers(ms.rest));
    QuotedFits(ms.key);
    var j := i + |ms.pre|;
    MembersParts(ms);
    HereFits(text, i, T.MembersText(ms));
    HereSplit(text, i, ms.pre, q + (colon + (w + rest)));
    HereSplit(text, j, q, colon + (w + rest));
    HereSplit(text, j + |q|, colon, w + rest);
    HereSplit(text, j + |q| + |colon|, w, rest);
    RestEnds(text, j + |q| + |colon| + |w|, ms.post, MoreMembers(ms.rest));
  }

  lemma {:induction false} QuotedFits(es: seq<T.Elem>)
    requires T.GoodElems(es)
    ensures |T.Bytes(false, es)| <= |T.Quoted(es)|
  {
    BytesFit(es);
  }

  lemma {:induction false} MembersParts(ms: T.Members)
    requires ms.Member? && T.GoodMembers(ms)
    ensures T.MembersText(ms) ==
              ms.pre + (T.Quoted(ms.key) + ((ms.colonPre + (":" + ms.colonPost))
                + (T.ValueText(ms.value) + Rest(ms.post, MoreMembers(ms.rest)))))
    ensures ms.rest.NoMembers? <==> MoreMembers(ms.rest) == ""
  {
    hide T.ValueText, T.Quoted;
    var w := T.ValueText(ms.value) + Rest(ms.post, MoreMembers(ms.rest));
    assert (ms.colonPre + (":" + ms.colonPost)) + w == ms.colonPre + (":" + (ms.colonPost + w));
  }

  lemma {:induction false} MembersNodes(nodes: seq<Node>, k: int, ms: T.Members, named: seq<Node>, mid: seq<Node>, end: seq<Node>)
    requires 0 <= k < |nodes| && ms.Member? && T.GoodMembers(ms)
    requires named == nodes[k := nodes[k].(names := nodes[k].names + |T.Bytes(false, ms.key)| + 1)]
    requires mid == Bump(named, k) + Skel(ms.value, k, |nodes|)
    requires end == if ms.rest.NoMembers? then mid
                    else mid[k := mid[k].(length := mid[k].length + CountMembers(ms.rest), names := mid[k].names + NameBytes(ms.rest))]
                         + SkelMembers(ms.rest, k, |mid|)
    ensures end == nodes[k := nodes[k].(length := nodes[k].length + CountMembers(ms), names := nodes[k].names + NameBytes(ms))]
                   + SkelMembers(ms, k, |nodes|)
  {
    hide Skel, SkelMembers, T.Bytes;
    SkelParts(T.NoItems, ms, k, |nodes|);
    var n0 := named[k];
    var n1 := n0.(length := n0.length + 1);
    var n2 := nodes[k].(length := nodes[k].length + CountMembers(ms), names := nodes[k].names + NameBytes(ms));
    var first, rest := Skel(ms.value, k, |nodes|), SkelMembers(ms.rest, k, |mid|);
    assert named[k := n1] == nodes[k := n1];
    if ms.rest.NoMembers? {
      NoNodes(k, |mid|);
      assert n1 == n2 && first + [] == first;
    } else {
      Compose(nodes, k, n1, n2, first, rest);
    }
  }
}
