/** The second pass of src/json.c, on the text of a value, fills the nodes that the first pass counted. */
module JsonSecondReading {
  import opened JsonParser
  import opened JsonReading
  import opened JsonFirstReading
  import opened JsonNumbers
  import opened Sequences
  import P = JsonSecondPass
  import T = JsonText

  /** How many nodes a value takes. */
  function Width(v: T.Value): nat
    ensures Width(v) > 0
  {
    match v
    case Array(_, items) => 1 + WidthItems(items)
    case Object(_, ms) => 1 + WidthMembers(ms)
    case _ => 1
  }

  function WidthItems(items: T.Items): nat {
    if items.NoItems? then 0 else Width(items.value) + WidthItems(items.rest)
  }

  function WidthMembers(ms: T.Members): nat {
    if ms.NoMembers? then 0 else Width(ms.value) + WidthMembers(ms.rest)
  }

  /** The node at `at`, with those behind it, holds the value. */
  ghost predicate Stored(nodes: seq<Node>, at: int, v: T.Value)
    requires T.Good(v)
    decreases v
  {
    && 0 <= at && at + Width(v) <= |nodes|
    && var n := nodes[at];
       match v
       case Null => n.kind.KNull?
       case True => n.kind.KBoolean? && n.boolean
       case False => n.kind.KBoolean? && !n.boolean
       case Number(m) => if T.IsInteger(m) then n.kind.KInteger? && n.integer == Wrap64(T.IntValue(m)) else n.kind.KDouble?
       case Text(es) =>
         n.kind.KString? && n.length == |T.Bytes(false, es)| && n.mem == T.Bytes(false, es) + "\0"
       case Array(_, items) =>
         n.kind.KArray? && n.length == |n.slots| == Count(items) && StoredItems(nodes, at, 0, at + 1, items)
       case Object(_, ms) =>
         n.kind.KObject? && n.length == |n.slots| == CountMembers(ms) && StoredMembers(nodes, at, 0, 0, at + 1, ms)
  }

  /** Entry `j` of the array at `p`, and those after it, hold the items; their nodes start at `at`. */
  ghost predicate StoredItems(nodes: seq<Node>, p: int, j: nat, at: int, items: T.Items)
    requires T.GoodItems(items)
    decreases items
  {
    items.Item? ==>
      && 0 <= p < |nodes| && j < |nodes[p].slots| && nodes[p].slots[j].value == at
      && Stored(nodes, at, items.value)
      && StoredItems(nodes, p, j + 1, at + Width(items.value), items.rest)
  }

  /** The same for an object, whose names start at `nameAt` in its block. */
  ghost predicate StoredMembers(nodes: seq<Node>, p: int, j: nat, nameAt: nat, at: int, ms: T.Members)
    requires T.GoodMembers(ms)
    decreases ms
  {
    ms.Member? ==>
      && 0 <= p < |nodes| && Named(nodes[p], j, nameAt, T.Bytes(false, ms.key), at)
      && Stored(nodes, at, ms.value)
      && StoredMembers(nodes, p, j + 1, nameAt + |T.Bytes(false, ms.key)| + 1, at + Width(ms.value), ms.rest)
  }

  /** Entry `j` has this name, with its terminator, and this value. */
  ghost predicate Named(n: Node, j: nat, nameAt: nat, name: string, c: int) {
    && j < |n.slots| && n.slots[j] == Slot(nameAt, |name|, c)
    && nameAt + |name| + 1 <= |n.mem| && n.mem[nameAt..nameAt + |name| + 1] == name + "\0"
  }

  // ----- only its own nodes matter to what a value holds -----

  ghost predicate Same(nodes: seq<Node>, nodes': seq<Node>, lo: int, hi: int) {
    |nodes'| == |nodes| && forall i :: 0 <= i < |nodes| && lo <= i < hi ==> nodes'[i] == nodes[i]
  }

  lemma {:induction false} StoredSame(nodes: seq<Node>, nodes': seq<Node>, at: int, v: T.Value)
    requires T.Good(v) && Stored(nodes, at, v) && Same(nodes, nodes', at, at + Width(v))
    ensures Stored(nodes', at, v)
    decreases v
  {
    hide StoredItems, StoredMembers, T.Bytes, T.IntValue, Wrap64;
    assert nodes'[at] == nodes[at];
    match v
    case Array(_, items) => StoredItemsSame(nodes, nodes', at, 0, at + 1, items);
    case Object(_, ms) => StoredMembersSame(nodes, nodes', at, 0, 0, at + 1, ms);
    case _ =>
  }

  lemma {:induction false} StoredItemsSame(nodes: seq<Node>, nodes': seq<Node>, p: int, j: nat, at: int, items: T.Items)
    requires T.GoodItems(items) && StoredItems(nodes, p, j, at, items) && Same(nodes, nodes', at, at + WidthItems(items))
    requires 0 <= p < |nodes| && nodes'[p].slots == nodes[p].slots
    ensures StoredItems(nodes', p, j, at, items)
    decreases items
  {
    if items.Item? {
      StoredSame(nodes, nodes', at, items.value);
      StoredItemsSame(nodes, nodes', p, j + 1, at + Width(items.value), items.rest);
    }
  }

  lemma {:induction false} StoredMembersSame(nodes: seq<Node>, nodes': seq<Node>, p: int, j: nat, nameAt: nat, at: int, ms: T.Members)
    requires T.GoodMembers(ms) && StoredMembers(nodes, p, j, nameAt, at, ms) && Same(nodes, nodes', at, at + WidthMembers(ms))
    requires 0 <= p < |nodes| && nodes'[p].slots == nodes[p].slots && nodes'[p].mem == nodes[p].mem
    ensures StoredMembers(nodes', p, j, nameAt, at, ms)
    decreases ms
  {
    hide T.Bytes, Stored;
    if ms.Member? {
      StoredSame(nodes, nodes', at, ms.value);
      StoredMembersSame(nodes, nodes', p, j + 1, nameAt + |T.Bytes(false, ms.key)| + 1, at + Width(ms.value), ms.rest);
    }
  }

  /** A value takes as many nodes as its skeleton has. */
  lemma {:induction false} SkelWidth(v: T.Value, parent: int, at: nat)
    requires T.Good(v)
    ensures |Skel(v, parent, at)| == Width(v)
    decreases v
  {
    match v
    case Array(_, items) => SkelItemsWidth(items, at, at + 1);
    case Object(_, ms) => SkelMembersWidth(ms, at, at + 1);
    case _ =>
  }

  lemma {:induction false} SkelItemsWidth(items: T.Items, parent: int, at: nat)
    requires T.GoodItems(items)
    ensures |SkelItems(items, parent, at)| == WidthItems(items)
    decreases items
  {
    if items.Item? {
      SkelWidth(items.value, parent, at);
      SkelItemsWidth(items.rest, parent, at + Width(items.value));
    }
  }

  lemma {:induction false} SkelMembersWidth(ms: T.Members, parent: int, at: nat)
    requires T.GoodMembers(ms)
    ensures |SkelMembers(ms, parent, at)| == WidthMembers(ms)
    decreases ms
  {
    if ms.Member? {
      SkelWidth(ms.value, parent, at);
      SkelMembersWidth(ms.rest, parent, at + Width(ms.value));
    }
  }

  // ----- where a value is read -----

  /** The nodes that the first pass left for what is read next. */
  predicate Planned(s: State, block: seq<Node>) {
    s.alloc + |block| <= |s.nodes| && s.nodes[s.alloc..s.alloc + |block|] == block && Modest(block)
  }

  /** No object among the nodes is oversized. */
  predicate Modest(nodes: seq<Node>) { forall i :: 0 <= i < |nodes| ==> !Oversized(nodes[i]) }

  predicate Ctx2(s: State) {
    && AtValue(s)
    && (s.top == NONE || (0 <= s.top < s.alloc && ValidTop(s) && IsContainer(s.nodes[s.top].kind)
                          && Ample(s.nodes[s.top]) && s.nodes[s.top].length < UINT_MAX))
  }

  /** There is a next entry, and it has room in the block. */
  predicate Ample(n: Node) { n.length < |n.slots| && (n.kind.KObject? ==> !Wrapped(|n.slots|)) }

  /** The container with one entry more, node `c`. */
  function Entered(n: Node, c: int): Node
    requires n.length < |n.slots|
  {
    n.(length := n.length + 1, slots := n.slots[n.length := n.slots[n.length].(value := c)])
  }

  /** `t` is the state after a value of `width` nodes and `len` characters has been read from state `s`. */
  ghost predicate After2(s: State, t: State, width: nat, len: nat)
    requires Ctx2(s)
  {
    && t.ptr == s.ptr + len && t.flags == AfterFlags(s)
    && t.top == (if s.top == NONE then s.alloc else s.top) && t.alloc == s.alloc + width
    && Same(s.nodes, t.nodes, s.alloc + width, |s.nodes|)
    && (forall i :: 0 <= i < s.alloc && i < |s.nodes| && i != s.top ==> t.nodes[i] == s.nodes[i])
    && (s.top != NONE ==> t.nodes[s.top] == Entered(s.nodes[s.top], s.alloc))
  }

  lemma Close2(s: State, leaf: State, width: nat)
    requires Ctx2(s) && width > 0 && s.alloc + width <= |s.nodes| == |leaf.nodes|
    requires leaf.top == s.alloc && leaf.alloc == s.alloc + width && leaf.ptr >= s.ptr
    requires leaf.nodes[s.alloc].parent == s.top
    requires leaf.flags == Flags(leaf.flags.needComma, false, false, false, false, false, false, false)
    requires forall i :: 0 <= i < |s.nodes| && !(s.alloc <= i < s.alloc + width) ==> leaf.nodes[i] == s.nodes[i]
    ensures var r := Finish(false, leaf);
            && r.Continue? && After2(s, r.s, width, leaf.ptr - s.ptr)
            && Same(leaf.nodes, r.s.nodes, s.alloc, s.alloc + width)
  {
    hide Wrapped, BlockSize;
  }

  // ----- literals, numbers, strings -----

  /** The next node is taken, with its blocks. */
  lemma Take(cfg: Config, s: State, kind: Kind, block: seq<Node>) returns (t: State)
    requires Planned(s, block) && block != [] && 0 <= s.alloc
    ensures NewValue(false, cfg, s, kind) == Continue(t)
    ensures t == s.(nodes := s.nodes[s.alloc := WithBlocks(cfg, block[0])], top := s.alloc, alloc := s.alloc + 1)
  {
    hide WithBlocks, Oversized;
    assert s.nodes[s.alloc..s.alloc + |block|][0] == s.nodes[s.alloc];
    t := NewValue(false, cfg, s, kind).s;
  }

  lemma ReadLiteral2(cfg: Config, text: string, s: State, v: T.Value, word: string, kind: Kind, truth: bool)
    returns (t: State)
    requires s.ptr <= |text| && Ctx2(s) && Here(text, s.ptr, word) && T.Good(v) && Planned(s, Skel(v, s.top, s.alloc))
    requires (word == "true" && kind == KBoolean && truth && v == T.True)
          || (word == "false" && kind == KBoolean && !truth && v == T.False)
          || (word == "null" && kind == KNull && !truth && v == T.Null)
    ensures After2(s, t, 1, |word|) && t.ptr <= |text| && Stored(t.nodes, s.alloc, v)
    ensures Run(false, cfg, text, s) == Run(false, cfg, text, t)
  {
    hide Run, Finish, Step;
    var n := FreshNode(kind, s.top).(boolean := truth);
    var u := Take(cfg, s.(flags := s.flags.(seekValue := false)), kind, [n]);
    var leaf := SetTop(u, n).(ptr := s.ptr + |word|);
    Close2(s, leaf, 1);
    t := Finish(false, leaf).s;
    RunStep(false, cfg, text, s);
    LiteralStep(false, cfg, text, s, word, kind, truth);
  }

  lemma ReadNumeral2(cfg: Config, text: string, s: State, m: T.Numeral) returns (t: State)
    requires s.ptr <= |text| && Ctx2(s) && T.GoodNumeral(m) && Here(text, s.ptr, T.NumeralText(m))
    requires Ends(At(text, s.ptr + |T.NumeralText(m)|))
    requires Planned(s, Skel(T.Number(m), s.top, s.alloc))
    ensures After2(s, t, 1, |T.NumeralText(m)|) && t.ptr <= |text| && Stored(t.nodes, s.alloc, T.Number(m))
    ensures Run(false, cfg, text, s) == Run(false, cfg, text, t)
  {
    hide Run, Finish, Step, T.Magnitude, T.NumeralText, Here, Wrap64;
    HereFits(text, s.ptr, T.NumeralText(m));
    var n := NumeralNode(m, s.top);
    var u := Take(cfg, s.(flags := s.flags.(seekValue := false)), KInteger, [n]);
    var leaf := u.(ptr := s.ptr + |T.NumeralText(m)|);
    Close2(s, leaf, 1);
    t := Finish(false, leaf).s;
    RunStep(false, cfg, text, s);
    NumberStep2(cfg, text, s, m);
  }

  lemma NumberStep2(cfg: Config, text: string, s: State, n: T.Numeral)
    requires s.ptr <= |text| && AtValue(s) && T.GoodNumeral(n) && Here(text, s.ptr, T.NumeralText(n))
    requires Ends(At(text, s.ptr + |T.NumeralText(n)|))
    ensures Step(false, cfg, text, s) ==
              var u := NewValue(false, cfg, s.(flags := s.flags.(seekValue := false)), KInteger);
              if !u.Continue? then u else Finish(false, u.s.(ptr := s.ptr + |T.NumeralText(n)|))
  {
    hide Literal, NewValue, Finish, SkipNumber;
    var w := T.NumeralText(n);
    HereAt(text, s.ptr, w, 0);
    NumberChars(n);
    forall k | s.ptr <= k < s.ptr + |w|
      ensures IsNumberChar(text[k])
    {
      HereAt(text, s.ptr, w, k - s.ptr);
    }
    P.SkipNumberStops(text, s.ptr, s.ptr + |w|);
  }

  lemma ReadToQuote2(cfg: Config, text: string, s: State, es: seq<T.Elem>) returns (t: State)
    requires s.ptr <= |text| && s.flags.inString && !s.flags.escaped && s.strLen == 0 && T.GoodElems(es) && ValidTop(s)
    requires Here(text, s.ptr, T.ElemsText(es) + "\"") && |T.Bytes(false, es)| <= UINT_MAX
    requires var n := s.nodes[s.top]; (if n.kind.KObject? then n.memAt else 0) + |T.Bytes(false, es)| + 1 <= |n.mem|
    ensures var n := s.nodes[s.top];
            t == SetTop(s, n.(mem := Splice(n.mem, if n.kind.KObject? then n.memAt else 0, T.Bytes(false, es))))
                   .(ptr := s.ptr + |T.ElemsText(es)|, strLen := |T.Bytes(false, es)|)
    ensures t.ptr < |text| && Run(false, cfg, text, s) == Run(false, cfg, text, t)
    ensures Step(false, cfg, text, t) == CloseString(false, t)
  {
    hide Run, Step, Here, AddChars, Splice, T.ElemsText, T.Bytes, T.GoodElems;
    HereSplit(text, s.ptr, T.ElemsText(es), "\"");
    AddCharsIs(s, T.Bytes(false, es));
    ReadChars(false, cfg, text, s, es);
    t := AddChars(false, s, T.Bytes(false, es)).s.(ptr := s.ptr + |T.ElemsText(es)|);
    HereAt(text, t.ptr, "\"", 0);
    QuoteStep(cfg, text, t);
  }

  lemma AddCharsIs(s: State, out: string)
    requires ValidTop(s) && s.strLen == 0
    requires var n := s.nodes[s.top]; (if n.kind.KObject? then n.memAt else 0) + |out| <= |n.mem|
    ensures var n := s.nodes[s.top];
            var n' := n.(mem := Splice(n.mem, if n.kind.KObject? then n.memAt else 0, out));
            AddChars(false, s, out) == Continue(SetTop(s, n').(strLen := |out|))
  {
  }

  lemma QuoteStep(cfg: Config, text: string, t: State)
    requires t.ptr <= |text| && t.flags.inString && !t.flags.escaped && At(text, t.ptr) == '"' && t.strLen <= UINT_MAX
    ensures Step(false, cfg, text, t) == CloseString(false, t)
  {
    hide CloseString, DecodeEscape, Poke;
  }

  /** Closing a string writes its terminator behind it. */
  lemma WrittenTwice(m: string, at: nat, out: string)
    requires at + |out| + 1 <= |m|
    ensures Splice(Splice(m, at, out), at + |out|, "\0") == Splice(m, at, out + "\0")
  {
  }

  lemma ReadString2(cfg: Config, text: string, s: State, es: seq<T.Elem>) returns (t: State)
    requires s.ptr <= |text| && Ctx2(s) && T.GoodElems(es) && Here(text, s.ptr, T.Quoted(es)) && |T.Bytes(false, es)| <= UINT_MAX
    requires Planned(s, Skel(T.Text(es), s.top, s.alloc))
    ensures After2(s, t, 1, |T.Quoted(es)|) && t.ptr <= |text| && Stored(t.nodes, s.alloc, T.Text(es))
    ensures Run(false, cfg, text, s) == Run(false, cfg, text, t)
  {
    hide Run, Finish, Step, T.ElemsText, T.Bytes;
    var out := T.Bytes(false, es);
    assert T.Quoted(es) == "\"" + (T.ElemsText(es) + "\"");
    HereSplit(text, s.ptr, "\"", T.ElemsText(es) + "\"");
    var s1 := OpenQuote2(cfg, text, s, |out|);
    var s2 := ReadToQuote2(cfg, text, s1, es);
    var leaf := CloseString2(s, s2, out);
    Close2(s, leaf, 1);
    RunStep(false, cfg, text, s2);
    t := Finish(false, leaf).s;
  }

  lemma OpenQuote2(cfg: Config, text: string, s: State, len: nat) returns (t: State)
    requires s.ptr <= |text| && Ctx2(s) && Here(text, s.ptr, "\"") && Planned(s, [FreshNode(KString, s.top).(length := len)])
    ensures var n := WithBlocks(cfg, FreshNode(KString, s.top).(length := len));
            t == State(s.ptr + 1, s.alloc, s.nodes[s.alloc := n], s.alloc + 1,
                       s.flags.(seekValue := false, inString := true), s.num, 0)
    ensures t.ptr <= |text| && Run(false, cfg, text, s) == Run(false, cfg, text, t)
  {
    hide Run, Finish, Literal, NumberStart, NewValue, WithBlocks;
    HereAt(text, s.ptr, "\"", 0);
    RunStep(false, cfg, text, s);
    t := Take(cfg, s.(strLen := 0, ptr := s.ptr + 1, flags := s.flags.(seekValue := false, inString := true)), KString,
              [FreshNode(KString, s.top).(length := len)]);
  }

  lemma CloseString2(s: State, t: State, out: string) returns (leaf: State)
    requires ValidTop(t) && t.nodes[t.top].kind.KString? && |t.nodes[t.top].mem| == |out| + 1 && t.strLen == |out|
    requires t.nodes[t.top].mem[..|out|] == out
    ensures CloseString(false, t) == Finish(false, leaf)
    ensures leaf == SetTop(t, t.nodes[t.top].(length := |out|, mem := out + "\0")).(ptr := t.ptr + 1, flags := t.flags.(inString := false))
  {
    hide Finish;
    var n := t.nodes[t.top];
    leaf := SetTop(t, n.(length := |out|, mem := out + "\0")).(ptr := t.ptr + 1, flags := t.flags.(inString := false));
    var p := Poke(t, "\0").s;
    assert p.nodes[p.top].mem == out + "\0";
    assert p.nodes[p.top := leaf.nodes[t.top]] == leaf.nodes;
  }

  // ----- containers -----

  lemma OpenBracket2(cfg: Config, text: string, s: State, kind: Kind, block: seq<Node>) returns (t: State)
    requires s.ptr < |text| && Ctx2(s) && ((kind == KArray && text[s.ptr] == '[') || (kind == KObject && text[s.ptr] == '{'))
    requires Planned(s, block) && block != []
    ensures t == s.(ptr := s.ptr + 1, top := s.alloc, nodes := s.nodes[s.alloc := WithBlocks(cfg, block[0])],
                    alloc := s.alloc + 1, flags := s.flags.(seekValue := kind == KArray))
    ensures Run(false, cfg, text, s) == Run(false, cfg, text, t)
  {
    hide Run, Finish, Literal, NumberStart, NewValue, WithBlocks;
    RunStep(false, cfg, text, s);
    t := Take(cfg, s.(ptr := s.ptr + 1, flags := s.flags.(seekValue := kind == KArray)), kind, block);
  }

  lemma CloseBracket2(cfg: Config, text: string, s0: State, s: State, width: nat) returns (t: State)
    requires s.ptr < |text| && Ctx2(s0) && s0.ptr <= s.ptr
    requires width > 0 && s0.alloc + width <= |s0.nodes| == |s.nodes| && s.top == s0.alloc && s.alloc == s0.alloc + width
    requires forall i :: 0 <= i < |s0.nodes| && !(s0.alloc <= i < s0.alloc + width) ==> s.nodes[i] == s0.nodes[i]
    requires s.nodes[s.top].parent == s0.top
    requires (s.nodes[s.top].kind == KArray && text[s.ptr] == ']' && s.flags == Flags(s.flags.needComma, true, false, false, false, false, false, false))
          || (s.nodes[s.top].kind == KObject && text[s.ptr] == '}' && s.flags == Flags(s.flags.needComma, false, false, false, false, false, false, false))
    ensures After2(s0, t, width, s.ptr + 1 - s0.ptr) && Same(s.nodes, t.nodes, s0.alloc, s0.alloc + width)
    ensures t.ptr <= |text| && Run(false, cfg, text, s) == Run(false, cfg, text, t)
  {
    hide Run, Finish, Literal, NumberStart, NewValue;
    var leaf := s.(ptr := s.ptr + 1, flags := s.flags.(needComma := false, seekValue := false));
    Close2(s0, leaf, width);
    RunStep(false, cfg, text, s);
    assert Step(false, cfg, text, s) == Finish(false, leaf);
    t := Finish(false, leaf).s;
  }

  /** The object with a name read, for the entry to come. */
  function WithName(n: Node, name: string): Node
    requires n.length < |n.slots| && n.memAt + |name| + 1 <= |n.mem|
  {
    n.(mem := Splice(n.mem, n.memAt, name + "\0"), memAt := n.memAt + |name| + 1,
       slots := n.slots[n.length := n.slots[n.length].(nameAt := n.memAt, nameLen := |name|)])
  }

  predicate InObject2(s: State) {
    && 0 <= s.top < s.alloc && ValidTop(s) && s.nodes[s.top].kind.KObject?
    && s.flags == Flags(false, false, false, false, false, false, false, false)
  }

  lemma ReadKey2(cfg: Config, text: string, s: State, es: seq<T.Elem>) returns (t: State)
    requires s.ptr <= |text| && InObject2(s) && T.GoodElems(es) && Here(text, s.ptr, T.Quoted(es))
    requires |T.Bytes(false, es)| <= UINT_MAX
    requires var n := s.nodes[s.top]; Ample(n) && n.memAt + |T.Bytes(false, es)| + 1 <= |n.mem|
    ensures t == SetTop(s, WithName(s.nodes[s.top], T.Bytes(false, es)))
                   .(ptr := s.ptr + |T.Quoted(es)|, strLen := |T.Bytes(false, es)|,
                     flags := Flags(false, true, false, false, true, false, false, false))
    ensures t.ptr <= |text| && Run(false, cfg, text, s) == Run(false, cfg, text, t)
  {
    hide Run, Finish, Step, T.ElemsText, T.Bytes;
    assert T.Quoted(es) == "\"" + (T.ElemsText(es) + "\"");
    HereSplit(text, s.ptr, "\"", T.ElemsText(es) + "\"");
    HereAt(text, s.ptr, "\"", 0);
    var s1 := s.(ptr := s.ptr + 1, strLen := 0, flags := s.flags.(inString := true));
    KeyQuote(cfg, text, s);
    RunStep(false, cfg, text, s);
    var s2 := ReadToQuote2(cfg, text, s1, es);
    RunStep(false, cfg, text, s2);
    t := CloseKey2(s, s2, T.Bytes(false, es));
  }

  lemma KeyQuote(cfg: Config, text: string, s: State)
    requires s.ptr <= |text| && InObject2(s) && At(text, s.ptr) == '"'
    ensures Step(false, cfg, text, s) == Continue(s.(ptr := s.ptr + 1, strLen := 0, flags := s.flags.(inString := true)))
  {
    hide Finish;
  }

  lemma CloseKey2(s: State, t: State, name: string) returns (r: State)
    requires ValidTop(s) && s.nodes[s.top].kind.KObject? && t.strLen == |name|
    requires var n := s.nodes[s.top];
             && Ample(n) && n.memAt + |name| + 1 <= |n.mem|
             && t.top == s.top && t.nodes == s.nodes[s.top := n.(mem := Splice(n.mem, n.memAt, name))]
    ensures CloseString(false, t) == Continue(r)
    ensures r == SetTop(t, WithName(s.nodes[s.top], name))
                   .(ptr := t.ptr + 1, flags := t.flags.(inString := false, seekValue := true, needColon := true))
  {
    hide Finish, Splice, Poke, CloseString;
    var n := s.nodes[s.top];
    NameEnd(t, n, name);
    r := NameSlot(t, n, name);
  }

  /** The closing zero of a name. */
  lemma NameEnd(t: State, n: Node, name: string)
    requires ValidTop(t) && n.kind.KObject? && n.memAt + |name| + 1 <= |n.mem| && t.strLen == |name|
    requires t.nodes[t.top] == n.(mem := Splice(n.mem, n.memAt, name))
    ensures Poke(t, "\0") == Continue(SetTop(t, n.(mem := Splice(n.mem, n.memAt, name + "\0"))))
  {
    hide Finish;
    WrittenTwice(n.mem, n.memAt, name);
  }

  /** The name's entry in the slot. */
  lemma NameSlot(t: State, n: Node, name: string) returns (r: State)
    requires ValidTop(t) && n.kind.KObject? && n.memAt + |name| + 1 <= |n.mem| && t.strLen == |name| && Ample(n)
    requires Poke(t, "\0") == Continue(SetTop(t, n.(mem := Splice(n.mem, n.memAt, name + "\0"))))
    ensures CloseString(false, t) == Continue(r)
    ensures r == SetTop(t, WithName(n, name))
                   .(ptr := t.ptr + 1, flags := t.flags.(inString := false, seekValue := true, needColon := true))
  {
    hide Finish, Splice, Poke, Wrapped, BlockSize;
    r := CloseString(false, t).s;
    assert t.nodes[t.top := n.(mem := Splice(n.mem, n.memAt, name + "\0"))][t.top := WithName(n, name)]
        == t.nodes[t.top := WithName(n, name)];
  }

  // ----- values -----

  lemma {:induction false} ReadValue2(cfg: Config, text: string, s: State, v: T.Value) returns (t: State)
    requires |text| <= UINT_MAX && s.ptr <= |text| && Ctx2(s) && T.Good(v) && Planned(s, Skel(v, s.top, s.alloc))
    requires Here(text, s.ptr, T.ValueText(v)) && Ends(At(text, s.ptr + |T.ValueText(v)|))
    ensures After2(s, t, Width(v), |T.ValueText(v)|) && t.ptr <= |text| && Stored(t.nodes, s.alloc, v)
    ensures Run(false, cfg, text, s) == Run(false, cfg, text, t)
    decreases v
  {
    hide Run, Finish, After2, T.Magnitude, T.ElemsText, T.Bytes, Ctx2, Stored, Skel, Here, Step, T.ItemsText, T.MembersText, Modest;
    match v
    case Null => t := ReadLiteral2(cfg, text, s, v, "null", KNull, false);
    case True => t := ReadLiteral2(cfg, text, s, v, "true", KBoolean, true);
    case False => t := ReadLiteral2(cfg, text, s, v, "false", KBoolean, false);
    case Number(n) => t := ReadNumeral2(cfg, text, s, n);
    case Text(es) =>
      QuotedFits(es);
      HereFits(text, s.ptr, T.Quoted(es));
      t := ReadString2(cfg, text, s, es);
    case Array(gap, items) => t := ReadArray2(cfg, text, s, gap, items);
    case Object(gap, ms) => t := ReadObject2(cfg, text, s, gap, ms);
  }

  /** The array at `top`, being filled, has room for the items. */
  predicate InArray2(s: State, count: nat, len: nat) {
    && AtValue(s) && 0 <= s.top < s.alloc && ValidTop(s)
    && var n := s.nodes[s.top];
       n.kind.KArray? && n.length + count <= |n.slots| && n.length + len <= UINT_MAX
  }

  /** `n'` is `n` with more entries, after those it had. */
  ghost predicate Filled(n: Node, n': Node, count: nat) {
    && n'.kind == n.kind && n'.parent == n.parent && n'.length == n.length + count
    && |n'.slots| == |n.slots| && n.length <= |n.slots| && n'.slots[..n.length] == n.slots[..n.length]
    && |n'.mem| == |n.mem| && n.memAt <= n'.memAt && (n.memAt <= |n.mem| ==> n'.mem[..n.memAt] == n.mem[..n.memAt])
  }

  /** Between states `s` and `t` only the container at `top` and the nodes taken have changed. */
  ghost predicate Kept(s: State, t: State, width: nat) {
    && |t.nodes| == |s.nodes| && t.top == s.top && t.alloc == s.alloc + width
    && forall i :: 0 <= i < |s.nodes| && i != s.top && !(s.alloc <= i < s.alloc + width) ==> t.nodes[i] == s.nodes[i]
  }

  lemma {:induction false} ReadItems2(cfg: Config, text: string, s: State, items: T.Items) returns (t: State)
    requires |text| <= UINT_MAX && s.ptr <= |text| && items.Item? && T.GoodItems(items)
    requires InArray2(s, Count(items), |T.ItemsText(items)|) && Planned(s, SkelItems(items, s.top, s.alloc))
    requires Here(text, s.ptr, T.ItemsText(items)) && Ends(At(text, s.ptr + |T.ItemsText(items)|))
    ensures t.ptr == s.ptr + |T.ItemsText(items)| <= |text| && Kept(s, t, WidthItems(items))
    ensures t.flags == Flags(true, true, false, false, false, false, false, false)
    ensures Filled(s.nodes[s.top], t.nodes[s.top], Count(items))
    ensures StoredItems(t.nodes, s.top, s.nodes[s.top].length, s.alloc, items)
    ensures Run(false, cfg, text, s) == Run(false, cfg, text, t)
    decreases items, 1
  {
    hide Run, Finish, Step, Here, T.ValueText, T.ItemsText, SkelItems, Skel, Stored, Modest;
    PlannedItems(s, items);
    var s3 := ReadItem2(cfg, text, s, items);
    if items.rest.NoItems? {
      t := s3;
    } else {
      StillPlanned(s, s3, Width(items.value), SkelItems(items.rest, s.top, s.alloc + Width(items.value)));
      t := ReadItems2(cfg, text, s3, items.rest);
      StoredSame(s3.nodes, t.nodes, s.alloc, items.value);
      FirstEntryKept(s.nodes[s.top], s3.nodes[s.top], t.nodes[s.top], s.alloc);
    }
  }

  /** One entry of an array, with the comma or bracket after it. */
  lemma {:induction false} ReadItem2(cfg: Config, text: string, s: State, items: T.Items) returns (t: State)
    requires |text| <= UINT_MAX && s.ptr <= |text| && items.Item? && T.GoodItems(items)
    requires InArray2(s, Count(items), |T.ItemsText(items)|) && Planned(s, SkelItems(items, s.top, s.alloc))
    requires Here(text, s.ptr, T.ItemsText(items)) && Ends(At(text, s.ptr + |T.ItemsText(items)|))
    ensures s.ptr < t.ptr <= |text| && Kept(s, t, Width(items.value)) && Stored(t.nodes, s.alloc, items.value)
    ensures t.nodes[s.top] == Entered(s.nodes[s.top], s.alloc)
    ensures if items.rest.NoItems? then
              t.ptr == s.ptr + |T.ItemsText(items)| && t.flags == Flags(true, true, false, false, false, false, false, false)
            else
              && t.ptr + |T.ItemsText(items.rest)| == s.ptr + |T.ItemsText(items)| && Here(text, t.ptr, T.ItemsText(items.rest))
              && AtValue(t)
    ensures Run(false, cfg, text, s) == Run(false, cfg, text, t)
    decreases items, 0
  {
    hide Run, Finish, Step, Here, T.ValueText, T.ItemsText, SkelItems, Skel, Stored, Modest;
    ItemsHere(text, s.ptr, items);
    ReadGap(false, cfg, text, s, items.pre);
    var s1 := s.(ptr := s.ptr + |items.pre|);
    PlannedItems(s, items);
    var s2 := ReadValue2(cfg, text, s1, items.value);
    t := ReadRest(false, cfg, text, s2, items.post, More(items.rest));
  }

  lemma FirstEntryKept(n: Node, n1: Node, n2: Node, c: int)
    requires n.length < |n.slots| && n1 == Entered(n, c) && |n2.slots| == |n.slots| && n2.slots[..n1.length] == n1.slots[..n1.length]
    ensures n2.slots[n.length].value == c && n2.slots[..n.length] == n.slots[..n.length]
  {
    assert n2.slots[n.length] == n2.slots[..n1.length][n.length];
    assert n2.slots[..n.length] == n2.slots[..n1.length][..n.length];
  }

  lemma {:induction false} PlannedItems(s: State, items: T.Items)
    requires items.Item? && T.GoodItems(items) && Planned(s, SkelItems(items, s.top, s.alloc))
    ensures Planned(s, Skel(items.value, s.top, s.alloc))
    ensures Width(items.value) == |Skel(items.value, s.top, s.alloc)|
    ensures var w := s.alloc + Width(items.value);
            var rest := SkelItems(items.rest, s.top, w); w + |rest| <= |s.nodes| && s.nodes[w..w + |rest|] == rest && Modest(rest)
  {
    hide Skel, SkelItems, Modest;
    SkelParts(items, T.NoMembers, s.top, s.alloc);
    SkelWidth(items.value, s.top, s.alloc);
    SplitPlan(s, Skel(items.value, s.top, s.alloc), SkelItems(items.rest, s.top, s.alloc + Width(items.value)));
  }

  lemma SplitPlan(s: State, a: seq<Node>, b: seq<Node>)
    requires Planned(s, a + b)
    ensures Planned(s, a) && s.alloc + |a| + |b| <= |s.nodes| && s.nodes[s.alloc + |a|..s.alloc + |a| + |b|] == b && Modest(b)
  {
    hide Oversized;
    forall i | 0 <= i < |b| ensures !Oversized(b[i]) {
      assert (a + b)[|a| + i] == b[i];
    }
    forall i | 0 <= i < |a| ensures !Oversized(a[i]) {
      assert (a + b)[i] == a[i];
    }
    var w := s.nodes[s.alloc..s.alloc + |a + b|];
    assert w[..|a|] == a && w[|a|..] == b;
  }

  /** The nodes not yet taken are as they were. */
  lemma StillPlanned(s: State, t: State, width: nat, rest: seq<Node>)
    requires s.alloc + width + |rest| <= |s.nodes| && s.nodes[s.alloc + width..s.alloc + width + |rest|] == rest && Modest(rest)
    requires t.alloc == s.alloc + width && Same(s.nodes, t.nodes, s.alloc + width, |s.nodes|)
    ensures Planned(t, rest)
  {
    hide Modest;
    forall i | 0 <= i < |rest|
      ensures t.nodes[t.alloc..t.alloc + |rest|][i] == rest[i]
    {
      assert s.nodes[s.alloc + width..s.alloc + width + |rest|][i] == s.nodes[s.alloc + width + i];
    }
  }

  lemma {:induction false} ReadArray2(cfg: Config, text: string, s: State, gap: string, items: T.Items) returns (t: State)
    requires |text| <= UINT_MAX && s.ptr <= |text| && Ctx2(s) && T.Good(T.Array(gap, items))
    requires Planned(s, Skel(T.Array(gap, items), s.top, s.alloc)) && Here(text, s.ptr, T.ValueText(T.Array(gap, items)))
    ensures After2(s, t, Width(T.Array(gap, items)), |T.ValueText(T.Array(gap, items))|) && t.ptr <= |text|
    ensures Stored(t.nodes, s.alloc, T.Array(gap, items))
    ensures Run(false, cfg, text, s) == Run(false, cfg, text, t)
    decreases items, 2
  {
    hide Run, Finish, After2, T.ValueText, T.ItemsText, SkelItems, Here, Step, StoredItems, Modest;
    ArrayHere(text, s.ptr, gap, items);
    var n := FreshNode(KArray, s.top).(length := Count(items));
    var rest := SkelItems(items, s.alloc, s.alloc + 1);
    SplitPlan(s, [n], rest);
    SkelItemsWidth(items, s.alloc, s.alloc + 1);
    var s1 := OpenBracket2(cfg, text, s, KArray, [n]);
    var s2;
    if items.NoItems? {
      ReadGap(false, cfg, text, s1, gap);
      s2 := s1.(ptr := s1.ptr + |gap|);
      NothingStored(s2.nodes, s.alloc);
    } else {
      StillPlanned(s, s1, 1, rest);
      s2 := ReadItems2(cfg, text, s1, items);
    }
    t := CloseBracket2(cfg, text, s, s2, 1 + WidthItems(items));
    StoredItemsSame(s2.nodes, t.nodes, s.alloc, 0, s.alloc + 1, items);
  }

  lemma NothingStored(nodes: seq<Node>, at: int)
    ensures StoredItems(nodes, at, 0, at + 1, T.NoItems) && StoredMembers(nodes, at, 0, 0, at + 1, T.NoMembers)
  {
  }

  /** The object at `top`, being filled, has room for the members and their names. */
  predicate RoomFor(s: State, count: nat, names: nat, len: nat) {
    && InObject2(s)
    && var n := s.nodes[s.top];
       && n.length + count <= |n.slots| && n.memAt + names <= |n.mem| && n.length + len <= UINT_MAX
       && !Wrapped(|n.slots|)
  }

  lemma {:induction false} ReadMembers2(cfg: Config, text: string, s: State, ms: T.Members) returns (t: State)
    requires |text| <= UINT_MAX && s.ptr <= |text| && ms.Member? && T.GoodMembers(ms)
    requires RoomFor(s, CountMembers(ms), NameBytes(ms), |T.MembersText(ms)|) && Planned(s, SkelMembers(ms, s.top, s.alloc))
    requires Here(text, s.ptr, T.MembersText(ms)) && Ends(At(text, s.ptr + |T.MembersText(ms)|))
    ensures t.ptr == s.ptr + |T.MembersText(ms)| <= |text| && Kept(s, t, WidthMembers(ms))
    ensures t.flags == Flags(true, false, false, false, false, false, false, false)
    ensures Filled(s.nodes[s.top], t.nodes[s.top], CountMembers(ms))
    ensures StoredMembers(t.nodes, s.top, s.nodes[s.top].length, s.nodes[s.top].memAt, s.alloc, ms)
    ensures Run(false, cfg, text, s) == Run(false, cfg, text, t)
    decreases ms, 1
  {
    hide Run, Finish, Step, Here, T.ValueText, T.MembersText, T.Quoted, T.Bytes, Skel, SkelMembers, Stored, Splice, Modest;
    var name := T.Bytes(false, ms.key);
    var n := s.nodes[s.top];
    MembersHere(text, s.ptr, ms);
    PlannedMembers(s, ms);
    var s7 := ReadMember2(cfg, text, s, ms);
    if ms.rest.NoMembers? {
      t := s7;
    } else {
      StillPlanned(s, s7, Width(ms.value), SkelMembers(ms.rest, s.top, s.alloc + Width(ms.value)));
      t := ReadMembers2(cfg, text, s7, ms.rest);
      StoredSame(s7.nodes, t.nodes, s.alloc, ms.value);
    }
    FirstNameKept(n, s7.nodes[s.top], t.nodes[s.top], name, s.alloc);
  }

  /** One member, with what separates it from the next. */
  lemma {:induction false} ReadMember2(cfg: Config, text: string, s: State, ms: T.Members) returns (t: State)
    requires |text| <= UINT_MAX && s.ptr <= |text| && ms.Member? && T.GoodMembers(ms)
    requires RoomFor(s, CountMembers(ms), NameBytes(ms), |T.MembersText(ms)|) && Planned(s, SkelMembers(ms, s.top, s.alloc))
    requires Here(text, s.ptr, T.MembersText(ms)) && Ends(At(text, s.ptr + |T.MembersText(ms)|))
    ensures t.ptr <= |text| && Kept(s, t, Width(ms.value)) && Stored(t.nodes, s.alloc, ms.value)
    ensures t.nodes[s.top] == Entered(WithName(s.nodes[s.top], T.Bytes(false, ms.key)), s.alloc)
    ensures if ms.rest.NoMembers? then
              t.ptr == s.ptr + |T.MembersText(ms)| && t.flags == Flags(true, false, false, false, false, false, false, false)
            else
              && t.ptr + |T.MembersText(ms.rest)| == s.ptr + |T.MembersText(ms)| && Here(text, t.ptr, T.MembersText(ms.rest))
              && t.flags == Flags(false, false, false, false, false, false, false, false)
    ensures Run(false, cfg, text, s) == Run(false, cfg, text, t)
    decreases ms, 0
  {
    hide Run, Finish, Step, Here, T.ValueText, T.MembersText, T.Quoted, T.Bytes, Skel, SkelMembers, Stored, Splice, Modest;
    MembersHere(text, s.ptr, ms);
    PlannedMembers(s, ms);
    ReadGap(false, cfg, text, s, ms.pre);
    var s1 := s.(ptr := s.ptr + |ms.pre|);
    var s2 := ReadKey2(cfg, text, s1, ms.key);
    var s5 := ReadToValue(false, cfg, text, s2, ms.colonPre, ms.colonPost);
    StillPlanned(s, s5, 0, Skel(ms.value, s.top, s.alloc));
    var s6 := ReadValue2(cfg, text, s5, ms.value);
    t := ReadRest(false, cfg, text, s6, ms.post, MoreMembers(ms.rest));
  }

  lemma {:induction false} PlannedMembers(s: State, ms: T.Members)
    requires ms.Member? && T.GoodMembers(ms) && Planned(s, SkelMembers(ms, s.top, s.alloc))
    ensures Planned(s, Skel(ms.value, s.top, s.alloc))
    ensures Width(ms.value) == |Skel(ms.value, s.top, s.alloc)|
    ensures var w := s.alloc + Width(ms.value);
            var rest := SkelMembers(ms.rest, s.top, w); w + |rest| <= |s.nodes| && s.nodes[w..w + |rest|] == rest && Modest(rest)
  {
    hide Skel, SkelMembers, Modest;
    SkelParts(T.NoItems, ms, s.top, s.alloc);
    SkelWidth(ms.value, s.top, s.alloc);
    SplitPlan(s, Skel(ms.value, s.top, s.alloc), SkelMembers(ms.rest, s.top, s.alloc + Width(ms.value)));
  }

  lemma FirstNameKept(n: Node, n1: Node, n2: Node, name: string, c: int)
    requires n.length < |n.slots| && n.memAt + |name| + 1 <= |n.mem|
    requires n1 == Entered(WithName(n, name), c)
    requires |n2.slots| == |n.slots| && n2.slots[..n1.length] == n1.slots[..n1.length]
    requires |n2.mem| == |n.mem| && n2.mem[..n1.memAt] == n1.mem[..n1.memAt]
    ensures Named(n2, n.length, n.memAt, name, c)
    ensures n2.slots[..n.length] == n.slots[..n.length] && n2.mem[..n.memAt] == n.mem[..n.memAt]
  {
    var k, m := n.length, n.memAt;
    assert n2.slots[k] == n2.slots[..n1.length][k];
    assert n2.slots[..k] == n2.slots[..n1.length][..k] && n1.slots[..k] == n.slots[..k];
    assert n2.mem[m..n1.memAt] == n2.mem[..n1.memAt][m..];
    assert n1.mem[..n1.memAt][m..] == name + "\0";
    assert n2.mem[..m] == n2.mem[..n1.memAt][..m] && n1.mem[..m] == n.mem[..m];
  }

  lemma ModestOne(n: Node)
    ensures Modest([n]) ==> !Oversized(n)
  {
    assert [n][0] == n;
  }

  lemma ObjectBlocks(cfg: Config, n: Node)
    requires n.kind.KObject? && n.slots == [] && n.memAt == 0
    ensures var m := WithBlocks(cfg, n);
            && m.kind == n.kind && m.parent == n.parent && m.length == 0 && |m.slots| == n.length && m.memAt == 0
            && (n.length > 0 ==> |m.mem| == n.names)
  {
  }

  /** From the opening brace up to the closing one. */
  lemma {:induction false} ReadBody2(cfg: Config, text: string, s: State, gap: string, ms: T.Members) returns (t: State)
    requires |text| <= UINT_MAX && s.ptr <= |text| && Ctx2(s) && T.Good(T.Object(gap, ms))
    requires Planned(s, Skel(T.Object(gap, ms), s.top, s.alloc)) && Here(text, s.ptr, T.ValueText(T.Object(gap, ms)))
    ensures t.ptr + 1 == s.ptr + |T.ValueText(T.Object(gap, ms))| <= |text| && text[t.ptr] == '}'
    ensures s.alloc + Width(T.Object(gap, ms)) <= |s.nodes| == |t.nodes|
    ensures t.top == s.alloc && t.alloc == s.alloc + Width(T.Object(gap, ms))
    ensures forall i :: 0 <= i < |s.nodes| && !(s.alloc <= i < t.alloc) ==> t.nodes[i] == s.nodes[i]
    ensures var n := t.nodes[s.alloc];
            n.kind == KObject && n.parent == s.top && n.length == |n.slots| == CountMembers(ms)
    ensures StoredMembers(t.nodes, s.alloc, 0, 0, s.alloc + 1, ms)
    ensures t.flags == Flags(t.flags.needComma, false, false, false, false, false, false, false)
    ensures Run(false, cfg, text, s) == Run(false, cfg, text, t)
    decreases ms, 2
  {
    hide Run, T.ValueText, T.MembersText, SkelMembers, Skel, Here, Step, StoredMembers, Planned, AtValue, Modest;
    ObjectHere(text, s.ptr, gap, ms);
    var s1 := OpenObject2(cfg, text, s, gap, ms);
    if ms.NoMembers? {
      ReadGap(false, cfg, text, s1, gap);
      t := s1.(ptr := s1.ptr + |gap|);
      NothingStored(t.nodes, s.alloc);
    } else {
      t := ReadMembers2(cfg, text, s1, ms);
    }
  }

  lemma {:induction false} OpenObject2(cfg: Config, text: string, s: State, gap: string, ms: T.Members) returns (t: State)
    requires s.ptr < |text| && text[s.ptr] == '{' && Ctx2(s) && T.Good(T.Object(gap, ms))
    requires Planned(s, Skel(T.Object(gap, ms), s.top, s.alloc)) && |T.ValueText(T.Object(gap, ms))| <= UINT_MAX
    ensures s.alloc + 1 + WidthMembers(ms) <= |s.nodes|
    ensures t.ptr == s.ptr + 1 && t.top == s.alloc && t.alloc == s.alloc + 1 && |t.nodes| == |s.nodes| && InObject2(t)
    ensures t.nodes[s.alloc].parent == s.top && t.nodes[s.alloc].length == 0 && t.nodes[s.alloc].memAt == 0
    ensures |t.nodes[s.alloc].slots| == CountMembers(ms)
    ensures ms.Member? ==>
              RoomFor(t, CountMembers(ms), NameBytes(ms), |T.MembersText(ms)|) && Planned(t, SkelMembers(ms, s.alloc, s.alloc + 1))
    ensures forall i :: 0 <= i < |s.nodes| && i != s.alloc ==> t.nodes[i] == s.nodes[i]
    ensures Run(false, cfg, text, s) == Run(false, cfg, text, t)
  {
    hide Run, T.MembersText, SkelMembers, Step, WithBlocks, Modest, Wrapped;
    var n := FreshNode(KObject, s.top).(length := CountMembers(ms), names := NameBytes(ms));
    var rest := SkelMembers(ms, s.alloc, s.alloc + 1);
    SplitPlan(s, [n], rest);
    ModestOne(n);
    SkelMembersWidth(ms, s.alloc, s.alloc + 1);
    ObjectBlocks(cfg, n);
    t := OpenBracket2(cfg, text, s, KObject, [n]);
    StillPlanned(s, t, 1, rest);
  }

  lemma {:induction false} ReadObject2(cfg: Config, text: string, s: State, gap: string, ms: T.Members) returns (t: State)
    requires |text| <= UINT_MAX && s.ptr <= |text| && Ctx2(s) && T.Good(T.Object(gap, ms))
    requires Planned(s, Skel(T.Object(gap, ms), s.top, s.alloc)) && Here(text, s.ptr, T.ValueText(T.Object(gap, ms)))
    ensures After2(s, t, Width(T.Object(gap, ms)), |T.ValueText(T.Object(gap, ms))|) && t.ptr <= |text|
    ensures Stored(t.nodes, s.alloc, T.Object(gap, ms))
    ensures Run(false, cfg, text, s) == Run(false, cfg, text, t)
    decreases ms, 3
  {
    hide Run, Finish, After2, T.ValueText, T.MembersText, Skel, Here, Step, StoredMembers, Modest;
    var s2 := ReadBody2(cfg, text, s, gap, ms);
    t := CloseBracket2(cfg, text, s, s2, Width(T.Object(gap, ms)));
    StoredMembersSame(s2.nodes, t.nodes, s.alloc, 0, 0, s.alloc + 1, ms);
  }
}
