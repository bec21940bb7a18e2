/** What becomes of the second pass of src/json.c, told from the nodes that the first pass leaves. */
module JsonFate {
  import opened JsonParser
  import opened JsonPasses
  import opened JsonSecondPass

  /** All blocks do; one is refused; something is written outside one. */
  datatype Fate = Completes | Starves | Overruns

  /** An open value, and how many entries it has. */
  datatype Place = Place(node: int, done: nat)

  /** The last of the open values is complete, and has become an entry of the one before it. */
  function Entered(open: seq<Place>): seq<Place>
    requires |open| > 1
  {
    var k := |open| - 2;
    open[..k] + [Place(open[k].node, open[k].done + 1)]
  }

  /**
   What becomes of the rest of the nodes, from `at` on, with the values in `open` begun and not
   complete. An object asks for its block when it begins, for twelve bytes of its next entry when
   a member has been named, and for all 24 when the member's value is complete.
   */
  function FateFrom(final: seq<Node>, at: nat, open: seq<Place>): Fate
    requires at <= |final| && forall k :: 0 <= k < |open| ==> 0 <= open[k].node < |final|
    decreases |final| - at, |open|
  {
    var k := |open| - 1;
    if k >= 0 && (at == |final| || final[at].parent != open[k].node) then
      if k == 0 then FateFrom(final, at, [])
      else if !Within(final[open[k - 1].node], 24 * open[k - 1].done + 24) then Overruns
      else FateFrom(final, at, Entered(open))
    else if at == |final| then Completes
    else if k >= 0 && !Within(final[open[k].node], 24 * open[k].done + 12) then Overruns
    else if Refused(final[at]) then Starves
    else if Misplaced(final[at]) then Overruns
    else FateFrom(final, at + 1, open + [Place(at, 0)])
  }

  /** Where no object is oversized, all goes well. */
  lemma {:induction false} AllComplete(final: seq<Node>, at: nat, open: seq<Place>)
    requires at <= |final| && forall k :: 0 <= k < |open| ==> 0 <= open[k].node < |final|
    requires forall i :: 0 <= i < |final| ==> !Oversized(final[i])
    ensures FateFrom(final, at, open) == Completes
    decreases |final| - at, |open|
  {
    hide NamesAt, BlockSize;
    var k := |open| - 1;
    if k >= 0 && (at == |final| || final[at].parent != open[k].node) {
      AllComplete(final, at, if k == 0 then [] else Entered(open));
    } else if at < |final| {
      AllComplete(final, at + 1, open + [Place(at, 0)]);
    }
  }

  /** The open values of the first pass, with the entries they have. */
  ghost function Places(nodes: seq<Node>, path: seq<int>): (open: seq<Place>)
    ensures |open| == |path| && forall k :: 0 <= k < |path| ==> open[k].node == path[k]
  {
    seq(|path|, k requires 0 <= k < |path| => Place(path[k], Entries(nodes, path[k])))
  }

  ghost function Entries(nodes: seq<Node>, i: int): nat {
    if 0 <= i < |nodes| && IsContainer(nodes[i].kind) then nodes[i].length else 0
  }

  // ----- what the first pass still has to come -----

  /** A node that the first pass creates belongs to the container being read. */
  lemma StepParent(cfg: Config, text: string, s: State, path: seq<int>)
    requires s.ptr <= |text| && WF(cfg, s, path)
    ensures var r := Step(true, cfg, text, s);
            r.Continue? && |r.s.nodes| > |s.nodes| ==>
              r.s.nodes[|s.nodes|].parent == s.top && (path != [] ==> IsContainer(s.nodes[s.top].kind))
  {
    hide DecodeEscape, Chain, Wrap64, Finish;
    var f := s.flags;
    FinishNodes(s.(ptr := s.ptr + 1, flags := f.(needComma := false, seekValue := false)));
    FinishNodes(s.(ptr := s.ptr + 1, flags := f.(needComma := false)));
    if f.inString {
      hide SeekStep, ObjectStep, NumberStep;
      FinishNodes(SetTop(s.(ptr := s.ptr + 1, flags := f.(inString := false)), s.nodes[s.top].(length := s.strLen)));
    } else if f.seekValue {
      hide StringStep, ObjectStep, NumberStep;
      SeekParent(cfg, text, s, path);
    } else if InNumber(s) {
      hide StringStep, SeekStep, ObjectStep;
      FinishNodes(Signed(s));
    } else {
      hide StringStep, SeekStep, NumberStep;
    }
  }

  lemma FinishNodes(s: State)
    ensures var r := Finish(true, s);
            r.Continue? ==> |r.s.nodes| == |s.nodes| && forall i :: 0 <= i < |s.nodes| ==> r.s.nodes[i].parent == s.nodes[i].parent
  {
  }

  lemma SeekParent(cfg: Config, text: string, s: State, path: seq<int>)
    requires s.ptr <= |text| && WF(cfg, s, path) && s.flags.seekValue
    ensures var r := SeekStep(true, cfg, text, s);
            r.Continue? && |r.s.nodes| > |s.nodes| ==>
              r.s.nodes[|s.nodes|].parent == s.top && (path != [] ==> IsContainer(s.nodes[s.top].kind))
  {
    hide Chain, Finish, Literal;
    var s' := s.(flags := s.flags.(seekValue := false));
    FinishNodes(s.(ptr := s.ptr + 1, flags := s.flags.(needComma := false, seekValue := false)));
    LiteralParent(cfg, text, s', "true", KBoolean, true);
    LiteralParent(cfg, text, s', "false", KBoolean, false);
    LiteralParent(cfg, text, s', "null", KNull, false);
  }

  lemma LiteralParent(cfg: Config, text: string, s: State, word: string, kind: Kind, truth: bool)
    ensures var r := Literal(true, cfg, text, s, word, kind, truth);
            r.Continue? ==> |r.s.nodes| == |s.nodes| + 1 && r.s.nodes[|s.nodes|].parent == s.top
  {
    hide Finish;
    var r := NewValue(true, cfg, s, kind).s;
    var n := r.nodes[r.top];
    FinishNodes(SetTop(r, n.(boolean := truth || n.boolean)).(ptr := s.ptr + |word|));
  }

  /** A step takes one node at most. */
  lemma NodesGrow(cfg: Config, text: string, s: State, path: seq<int>)
    requires s.ptr <= |text| && WF(cfg, s, path)
    ensures var r := Step(true, cfg, text, s); r.Continue? ==> |s.nodes| <= |r.s.nodes| <= |s.nodes| + 1
  {
    hide SeekStep, Chain, DecodeEscape;
    SeekGrows(cfg, text, s);
  }

  lemma SeekGrows(cfg: Config, text: string, s: State)
    requires s.ptr <= |text|
    ensures var r := SeekStep(true, cfg, text, s); r.Continue? ==> |s.nodes| <= |r.s.nodes| <= |s.nodes| + 1
  {
    hide Word;
  }

  /** The next node belongs to one of the open values. */
  lemma {:induction false} NextInside(cfg: Config, text: string, s: State, path: seq<int>, final: seq<Node>)
    requires s.ptr <= |text| && WF(cfg, s, path) && Run(true, cfg, text, s) == Accept(final)
    ensures |s.nodes| <= |final| && (|s.nodes| < |final| && path != [] ==> final[|s.nodes|].parent in path)
    decreases Measure(cfg, text, s)
  {
    hide Step, WF, Run, Covers, Measure;
    var r := Step(true, cfg, text, s);
    StepWF(cfg, text, s, path);
    StepProgress(true, cfg, text, s);
    RunStep(true, cfg, text, s);
    if r.Continue? {
      var path' := Next(s, r.s, path);
      NextInside(cfg, text, r.s, path', final);
      StepParent(cfg, text, s, path);
      StepTaken(cfg, text, s, path, final);
      if path != [] {
        assert path == path[..|path| - 1] + [path[|path| - 1]];
      }
    } else {
      AcceptCovers(cfg, text, s, path, final);
    }
  }

  /** A node that a step takes belongs to the last of the open values. */
  lemma StepTaken(cfg: Config, text: string, s: State, path: seq<int>, final: seq<Node>)
    requires s.ptr <= |text| && WF(cfg, s, path) && Run(true, cfg, text, s) == Accept(final) && Step(true, cfg, text, s).Continue?
    ensures var t := Step(true, cfg, text, s).s;
            && |s.nodes| <= |t.nodes| <= |final| && (path != [] ==> path[|path| - 1] == s.top)
            && (|t.nodes| > |s.nodes| ==> final[|s.nodes|].parent == s.top)
            && (path != [] ==> Next(s, t, path) != [])
            && (|t.nodes| == |s.nodes| ==> Next(s, t, path) == path || (path != [] && Next(s, t, path) == path[..|path| - 1]))
  {
    hide Step, Run;
    StepWF(cfg, text, s, path);
    StepProgress(true, cfg, text, s);
    RunStep(true, cfg, text, s);
    StepParent(cfg, text, s, path);
    NodesGrow(cfg, text, s, path);
    var t := Step(true, cfg, text, s).s;
    Foreseen(cfg, text, t, Next(s, t, path), final);
    assert |t.nodes| > |s.nodes| ==> Grows(t.nodes[|s.nodes|], final[|s.nodes|]);
  }

  /** An object whose next member has been named, and whose value is still to come. */
  predicate Awaits(s: State) { ValidTop(s) && s.nodes[s.top].kind.KObject? && s.flags.seekValue }

  /** Its value comes next. */
  lemma {:induction false} NextMember(cfg: Config, text: string, s: State, path: seq<int>, final: seq<Node>)
    requires s.ptr <= |text| && WF(cfg, s, path) && Run(true, cfg, text, s) == Accept(final) && Awaits(s)
    ensures |s.nodes| < |final| && final[|s.nodes|].parent == s.top
    decreases Measure(cfg, text, s)
  {
    hide Step, WF, Run, Covers, Measure, Awaits;
    var r := Step(true, cfg, text, s);
    StepWF(cfg, text, s, path);
    StepProgress(true, cfg, text, s);
    RunStep(true, cfg, text, s);
    AwaitsStep(cfg, text, s, path);
    if r.Continue? {
      StepTaken(cfg, text, s, path, final);
      if |r.s.nodes| == |s.nodes| {
        NextMember(cfg, text, r.s, Next(s, r.s, path), final);
      }
    }
  }

  lemma AwaitsStep(cfg: Config, text: string, s: State, path: seq<int>)
    requires s.ptr <= |text| && WF(cfg, s, path) && Awaits(s)
    ensures var r := Step(true, cfg, text, s);
            !r.Accept? && (r.Continue? && |r.s.nodes| <= |s.nodes| ==> Awaits(r.s) && r.s.top == s.top)
  {
    hide StringStep, ObjectStep, NumberStep, Chain;
    LiteralsGrow(cfg, text, s.(flags := s.flags.(seekValue := false)));
  }

  lemma LiteralsGrow(cfg: Config, text: string, s: State)
    ensures forall word, kind, truth ::
              var r := Literal(true, cfg, text, s, word, kind, truth); r.Continue? ==> |r.s.nodes| > |s.nodes|
  {
    hide Word;
  }

  // ----- what a step of the first pass does to the open values -----

  predicate SameCount(n: Node, m: Node) {
    && IsContainer(m.kind) == IsContainer(n.kind) && m.kind.KObject? == n.kind.KObject? && m.names == n.names
    && (IsContainer(n.kind) ==> m.length == n.length)
  }

  /** All counts but those of node `but` are as before. */
  ghost predicate SameCounts(s: State, t: State, but: int) {
    |s.nodes| <= |t.nodes| && forall i :: 0 <= i < |s.nodes| && i != but ==> SameCount(s.nodes[i], t.nodes[i])
  }

  ghost predicate Stays(s: State, t: State) {
    |t.nodes| == |s.nodes| && t.top == s.top && SameCounts(s, t, NONE) && (Awaits(t) ==> Awaits(s))
  }

  /** A member has been named. */
  ghost predicate Names(s: State, t: State) {
    && |t.nodes| == |s.nodes| && t.top == s.top && ValidTop(s) && SameCounts(s, t, s.top) && Awaits(t)
    && var n, m := s.nodes[s.top], t.nodes[s.top]; n.kind.KObject? && m.length == n.length && m.names > n.names
  }

  ghost predicate Pushes(s: State, t: State) {
    && |t.nodes| == |s.nodes| + 1 && t.nodes[..|s.nodes|] == s.nodes && t.top == |s.nodes|
    && (IsContainer(t.nodes[t.top].kind) ==> t.nodes[t.top].length == 0) && (ValidTop(s) && s.nodes[s.top].kind.KObject? ==> Awaits(s)) && !Awaits(t)
  }

  predicate OneMore(n: Node, m: Node) {
    IsContainer(n.kind) && m.kind == n.kind && m.names == n.names && m.length == n.length + 1
  }

  ghost predicate Pops(s: State, t: State, path: seq<int>) {
    && |path| > 1 && |t.nodes| == |s.nodes| && t.top == path[|path| - 2] && ValidTop(t)
    && SameCounts(s, t, t.top) && OneMore(s.nodes[t.top], t.nodes[t.top]) && !Awaits(t)
  }

  /** A value that is no container, from its beginning to its end, as an entry of another. */
  ghost predicate Leafs(s: State, t: State) {
    && |t.nodes| == |s.nodes| + 1 && t.top == s.top && ValidTop(s) && SameCounts(s, t, s.top)
    && OneMore(s.nodes[s.top], t.nodes[s.top]) && !IsContainer(t.nodes[|s.nodes|].kind)
    && (s.nodes[s.top].kind.KObject? ==> Awaits(s)) && !Awaits(t)
  }

  ghost predicate Moves(s: State, t: State, path: seq<int>) {
    Stays(s, t) || Names(s, t) || Pushes(s, t) || Pops(s, t, path) || Leafs(s, t)
  }

  lemma FinishMoves(s: State, path: seq<int>)
    requires Ready(s, path) && Finish(true, s).Continue?
    ensures var t := Finish(true, s).s;
            && !Awaits(t)
            && if |path| == 1 then t.nodes == s.nodes && t.top == s.top else Pops(s, t, path)
  {
    hide Chain;
    FinishParent(s, path);
    PathValid(s.nodes, path);
  }

  lemma PathValid(nodes: seq<Node>, path: seq<int>)
    requires Chain(nodes, path)
    ensures forall k :: 0 <= k < |path| ==> 0 <= path[k] < |nodes|
    ensures forall j, k :: 0 <= j < k < |path| ==> path[j] < path[k]
  {
  }

  /** Finishing after what the value at the top holds has changed. */
  lemma ChangedMoves(s: State, s': State, path: seq<int>)
    requires OnPath(s, path) && Ready(s', path) && Finish(true, s').Continue?
    requires |s'.nodes| == |s.nodes| && s'.top == s.top && SameCounts(s, s', NONE)
    ensures Moves(s, Finish(true, s').s, path)
  {
    hide Chain, Finish;
    FinishMoves(s', path);
    var t := Finish(true, s').s;
    if |path| > 1 {
      PathValid(s.nodes, path);
      assert SameCount(s.nodes[t.top], s'.nodes[t.top]);
      PopsAfter(s, s', t, path);
    }
  }

  lemma PopsAfter(s: State, s': State, t: State, path: seq<int>)
    requires |s'.nodes| == |s.nodes| && SameCounts(s, s', NONE) && Pops(s', t, path)
    requires s'.nodes[t.top].kind == s.nodes[t.top].kind
    ensures Pops(s, t, path)
  {
    forall i | 0 <= i < |s.nodes| && i != t.top
      ensures SameCount(s.nodes[i], t.nodes[i])
    {
      assert SameCount(s.nodes[i], s'.nodes[i]) && SameCount(s'.nodes[i], t.nodes[i]);
    }
  }

  lemma StringMoves(cfg: Config, text: string, s: State, path: seq<int>)
    requires s.ptr <= |text| && WF(cfg, s, path) && s.flags.inString && StringStep(true, text, s).Continue?
    ensures Moves(s, StringStep(true, text, s).s, path)
  {
    hide EscapeStep, Finish, Chain, Pops, Pushes, Leafs;
    var n := s.nodes[s.top];
    if s.flags.escaped {
      EscapeFrame(text, s);
    } else if At(text, s.ptr) == '"' && n.kind.KString? {
      var s1 := SetTop(s.(ptr := s.ptr + 1, flags := s.flags.(inString := false)), n.(length := s.strLen));
      SetTopWF(cfg, s, s1, path);
      ChangedMoves(s, s1, path);
    }
  }

  /** A value that is no container, begun and finished. */
  lemma LeafMoves(s: State, m: State, path: seq<int>)
    requires s.alloc == |s.nodes| && OnPath(s, path) && (path != [] ==> IsContainer(s.nodes[s.top].kind))
    requires ValidTop(s) && s.nodes[s.top].kind.KObject? ==> Awaits(s)
    requires |m.nodes| == |s.nodes| + 1 && m.nodes[..|s.nodes|] == s.nodes && m.top == |s.nodes|
    requires !IsContainer(m.nodes[m.top].kind)
    requires Ready(m, path + [m.top]) && Finish(true, m).Continue?
    ensures Moves(s, Finish(true, m).s, path)
  {
    hide Chain, Finish;
    var t := Finish(true, m).s;
    var path' := path + [m.top];
    FinishMoves(m, path');
    if path != [] {
      assert path'[|path'| - 2] == s.top;
      assert forall i :: 0 <= i < |s.nodes| ==> m.nodes[i] == m.nodes[..|s.nodes|][i];
      assert Leafs(s, t);
    }
  }

  lemma LiteralMoves(cfg: Config, text: string, s: State, path: seq<int>, word: string, kind: Kind, truth: bool)
    requires s.alloc == |s.nodes| && OnPath(s, path) && (path != [] ==> IsContainer(s.nodes[s.top].kind))
    requires s.flags == Flags(false, false, false, false, false, false, false, false) && !IsContainer(kind)
    requires Literal(true, cfg, text, s, word, kind, truth).Continue?
    ensures Moves(s.(flags := s.flags.(seekValue := true)), Literal(true, cfg, text, s, word, kind, truth).s, path)
  {
    hide Finish, NewValue, Chain, Moves, Word;
    NewValueWF(cfg, s, path, kind);
    var r := NewValue(true, cfg, s, kind);
    var n := r.s.nodes[r.s.top];
    var m := SetTop(r.s, n.(boolean := truth || n.boolean)).(ptr := s.ptr + |word|);
    assert OnPath(m, path + [r.s.top]) by {
      ChainSame(r.s.nodes, m.nodes, path + [r.s.top]);
    }
    LeafMoves(s.(flags := s.flags.(seekValue := true)), m, path);
  }

  lemma SeekMoves(cfg: Config, text: string, s: State, path: seq<int>)
    requires s.ptr <= |text| && WF(cfg, s, path) && s.flags.seekValue && !s.flags.inString && !s.flags.done
    requires !s.flags.lineComment && !s.flags.blockComment && !AtNumber(cfg, text, s)
    requires SeekStep(true, cfg, text, s).Continue?
    ensures Moves(s, SeekStep(true, cfg, text, s).s, path)
  {
    hide Finish, Literal, NumberStart, Chain, Moves;
    var b := At(text, s.ptr);
    var s' := s.(flags := s.flags.(seekValue := false));
    assert s'.(flags := s'.flags.(seekValue := true)) == s;
    var t := SeekStep(true, cfg, text, s).s;
    if IsSpace(b) || (b != ']' && (s.flags.needComma || s.flags.needColon)) {
      StillMoves(s, t, path);
    } else if b == ']' {
      ChangedMoves(s, s.(ptr := s.ptr + 1, flags := s.flags.(needComma := false, seekValue := false)), path);
    } else if b == 't' {
      LiteralMoves(cfg, text, s', path, "true", KBoolean, true);
    } else if b == 'f' {
      LiteralMoves(cfg, text, s', path, "false", KBoolean, false);
    } else if b == 'n' {
      LiteralMoves(cfg, text, s', path, "null", KNull, false);
    } else {
      OpenMoves(cfg, text, s, path);
    }
  }

  lemma StillMoves(s: State, t: State, path: seq<int>)
    requires t.nodes == s.nodes && t.top == s.top && (Awaits(t) ==> Awaits(s))
    ensures Moves(s, t, path)
  {
  }

  lemma OpenMoves(cfg: Config, text: string, s: State, path: seq<int>)
    requires s.ptr <= |text| && WF(cfg, s, path) && s.flags.seekValue && !s.flags.inString && !s.flags.done
    requires !s.flags.needComma && !s.flags.needColon
    requires var b := At(text, s.ptr); b == '{' || b == '[' || b == '"'
    ensures var r := SeekStep(true, cfg, text, s); r.Continue? && Moves(s, r.s, path)
  {
    hide Finish, Literal, NumberStart, Chain;
    assert Pushes(s, SeekStep(true, cfg, text, s).s);
  }

  lemma ObjectMoves(cfg: Config, text: string, s: State, path: seq<int>)
    requires WF(cfg, s, path) && ValidTop(s) && s.nodes[s.top].kind.KObject? && ObjectStep(true, text, s).Continue?
    requires !s.flags.seekValue && !s.flags.inString && !s.flags.done && !s.flags.lineComment && !s.flags.blockComment
    ensures Moves(s, ObjectStep(true, text, s).s, path)
  {
    hide Finish, Chain, Moves;
    if At(text, s.ptr) == '}' {
      ChangedMoves(s, s.(ptr := s.ptr + 1, flags := s.flags.(needComma := false)), path);
    } else {
      StillMoves(s, ObjectStep(true, text, s).s, path);
    }
  }

  lemma StepMoves(cfg: Config, text: string, s: State, path: seq<int>)
    requires s.ptr <= |text| && WF(cfg, s, path) && !InNumber(s) && !AtNumber(cfg, text, s)
    requires Step(true, cfg, text, s).Continue?
    ensures Moves(s, Step(true, cfg, text, s).s, path)
  {
    hide StringStep, SeekStep, ObjectStep, NumberStep, Chain, Moves;
    if s.flags.inString {
      StringMoves(cfg, text, s, path);
    } else if cfg.comments && (s.flags.lineComment || s.flags.blockComment || At(text, s.ptr) == '/') {
      StillMoves(s, Step(true, cfg, text, s).s, path);
    } else if s.flags.done {
      StillMoves(s, Step(true, cfg, text, s).s, path);
    } else if s.flags.seekValue {
      SeekMoves(cfg, text, s, path);
    } else {
      ObjectMoves(cfg, text, s, path);
    }
  }

  // ----- and so to what becomes of the second pass -----

  /** The name of a member whose value is still to come lies in the block. */
  predicate Named(s: State, final: seq<Node>) {
    Awaits(s) && s.top < |final| ==> Within(final[s.top], 24 * s.nodes[s.top].length + 12)
  }

  /** Open values of which the last is at the top, among nodes that all are counted in `final`. */
  ghost predicate Opened(s: State, path: seq<int>, final: seq<Node>) {
    && |s.nodes| <= |final|
    && (forall k :: 0 <= k < |path| ==> 0 <= path[k] < |s.nodes|) && (forall j, k :: 0 <= j < k < |path| ==> path[j] < path[k])
    && (if path == [] then s.top == NONE else path[|path| - 1] == s.top)
    && (forall i :: 0 <= i < |s.nodes| ==> s.nodes[i].parent == final[i].parent && SameKind(s.nodes[i], final[i]))
  }

  predicate SameKind(n: Node, f: Node) { IsContainer(f.kind) == IsContainer(n.kind) && f.kind.KObject? == n.kind.KObject? }

  ghost function FateOf(s: State, path: seq<int>, final: seq<Node>): Fate
    requires Opened(s, path, final)
  {
    FateFrom(final, |s.nodes|, Places(s.nodes, path))
  }

  /** What becomes of the second pass is what a step makes of it, or what the nodes tell for after the step. */
  ghost predicate Told(s: State, path: seq<int>, t: State, path': seq<int>, final: seq<Node>)
    requires Opened(s, path, final) && Opened(t, path', final) && |s.nodes| <= |t.nodes|
  {
    if Fits(s, t, final) then FateOf(s, path, final) == FateOf(t, path', final) && Named(t, final)
    else FateOf(s, path, final) == if |s.nodes| < |t.nodes| && Refused(final[|s.nodes|]) then Starves else Overruns
  }

  lemma SamePlaces(s: State, t: State, path: seq<int>)
    requires SameCounts(s, t, NONE) && forall k :: 0 <= k < |path| ==> 0 <= path[k] < |s.nodes|
    ensures Places(t.nodes, path) == Places(s.nodes, path)
  {
  }

  lemma StaysTold(s: State, path: seq<int>, t: State, final: seq<Node>)
    requires Opened(s, path, final) && Opened(t, path, final) && Named(s, final) && Stays(s, t)
    ensures Told(s, path, t, path, final)
  {
    hide Within, Given;
    SamePlaces(s, t, path);
    if ValidTop(s) && !final[s.top].kind.KObject? {
      NoneSpills(final[s.top]);
    }
  }

  lemma NoneSpills(f: Node)
    requires !f.kind.KObject?
    ensures forall bytes :: Within(f, bytes)
    ensures Given(f) && !Refused(f) && !Misplaced(f)
  {
  }

  lemma NamesTold(s: State, path: seq<int>, t: State, final: seq<Node>)
    requires Opened(s, path, final) && Opened(t, path, final) && Names(s, t)
    requires |t.nodes| < |final| && final[|t.nodes|].parent == t.top
    ensures Told(s, path, t, path, final)
  {
    hide Within, Given;
    assert Places(t.nodes, path) == Places(s.nodes, path);
  }

  lemma PushesTold(s: State, path: seq<int>, t: State, final: seq<Node>)
    requires Opened(s, path, final) && Opened(t, path + [t.top], final) && Named(s, final) && Pushes(s, t)
    requires path != [] ==> final[|s.nodes|].parent == s.top && IsContainer(s.nodes[s.top].kind)
    ensures Told(s, path, t, path + [t.top], final)
  {
    hide Within, Refused, Misplaced;
    assert forall i :: 0 <= i < |s.nodes| ==> t.nodes[i] == t.nodes[..|s.nodes|][i];
    assert Places(t.nodes, path + [t.top]) == Places(s.nodes, path) + [Place(|s.nodes|, 0)];
    if path != [] && !s.nodes[s.top].kind.KObject? {
      NoneSpills(final[s.top]);
    }
  }

  lemma PopsTold(s: State, path: seq<int>, t: State, final: seq<Node>)
    requires path != [] && Opened(s, path, final) && Opened(t, path[..|path| - 1], final) && Pops(s, t, path)
    requires |t.nodes| == |final| || final[|t.nodes|].parent in path[..|path| - 1]
    ensures Told(s, path, t, path[..|path| - 1], final)
  {
    hide Within, Given;
    assert Places(t.nodes, path[..|path| - 1]) == Entered(Places(s.nodes, path));
  }

  lemma LeafsTold(s: State, path: seq<int>, t: State, final: seq<Node>)
    requires path != [] && Opened(s, path, final) && Opened(t, path, final) && Named(s, final) && Leafs(s, t)
    requires final[|s.nodes|].parent == s.top && (|t.nodes| == |final| || final[|t.nodes|].parent in path)
    ensures Told(s, path, t, path, final)
  {
    hide Within, Given, Refused, Misplaced;
    NoneSpills(final[|s.nodes|]);
    if !s.nodes[s.top].kind.KObject? {
      NoneSpills(final[s.top]);
    }
    var open := Places(s.nodes, path) + [Place(|s.nodes|, 0)];
    assert Places(t.nodes, path) == Entered(open);
    assert FateOf(s, path, final) == FateFrom(final, |t.nodes|, open);
  }

  lemma MovesTold(s: State, path: seq<int>, t: State, path': seq<int>, final: seq<Node>)
    requires Opened(s, path, final) && Opened(t, path', final) && Named(s, final)
    requires Moves(s, t, path) && path' == Next(s, t, path) && path' != []
    requires |s.nodes| < |t.nodes| ==> final[|s.nodes|].parent == s.top && (path != [] ==> IsContainer(s.nodes[s.top].kind))
    requires |t.nodes| < |final| ==> final[|t.nodes|].parent in path' && (Awaits(t) ==> final[|t.nodes|].parent == t.top)
    requires |t.nodes| == |final| ==> !Awaits(t)
    ensures |s.nodes| <= |t.nodes| && Told(s, path, t, path', final)
  {
    hide Told, Opened, Named;
    OpenedTop(s, path, final);
    OpenedTop(t, path', final);
    if Stays(s, t) {
      StaysTold(s, path, t, final);
    } else if Names(s, t) {
      NamesTold(s, path, t, final);
    } else if Pushes(s, t) {
      PushesTold(s, path, t, final);
    } else if Pops(s, t, path) {
      PopsTold(s, path, t, final);
    } else {
      LeafsTold(s, path, t, final);
    }
  }

  lemma OpenedTop(s: State, path: seq<int>, final: seq<Node>)
    requires Opened(s, path, final)
    ensures |s.nodes| <= |final| && (path == [] <==> s.top == NONE)
    ensures path != [] ==> path[|path| - 1] == s.top && (|path| > 1 ==> path[|path| - 2] != s.top) && s.top < |s.nodes|
  {
  }

  lemma OpenedBy(cfg: Config, s: State, path: seq<int>, final: seq<Node>)
    requires WF(cfg, s, path) && Covers(s, path, final)
    ensures Opened(s, path, final)
  {
    hide Mode;
    PathValid(s.nodes, path);
    forall i | 0 <= i < |s.nodes|
      ensures s.nodes[i].parent == final[i].parent && SameKind(s.nodes[i], final[i])
    {
      assert Grows(s.nodes[i], final[i]);
    }
  }

  /** A state after which nodes may still come, on the way to an accepting end. */
  lemma NextAhead(cfg: Config, text: string, t: State, path: seq<int>, final: seq<Node>)
    requires t.ptr <= |text| && WF(cfg, t, path) && Run(true, cfg, text, t) == Accept(final) && t.nodes != []
    ensures Opened(t, path, final) && path != []
    ensures |t.nodes| < |final| ==> final[|t.nodes|].parent in path && (Awaits(t) ==> final[|t.nodes|].parent == t.top)
    ensures |t.nodes| == |final| ==> !Awaits(t)
  {
    hide Run, Covers, Awaits, Opened, Mode, Chain;
    Foreseen(cfg, text, t, path, final);
    OpenedBy(cfg, t, path, final);
    NextInside(cfg, text, t, path, final);
    if Awaits(t) {
      NextMember(cfg, text, t, path, final);
    }
  }

  lemma StepTold(cfg: Config, text: string, s: State, path: seq<int>, final: seq<Node>)
    requires s.ptr <= |text| && WF(cfg, s, path) && !InNumber(s) && !AtNumber(cfg, text, s)
    requires Run(true, cfg, text, s) == Accept(final) && Step(true, cfg, text, s).Continue?
    requires Named(s, final)
    ensures var t := Step(true, cfg, text, s).s;
            var path' := Next(s, t, path);
            && Opened(s, path, final) && Opened(t, path', final) && |s.nodes| <= |t.nodes| && Told(s, path, t, path', final)
  {
    hide Run, Covers, Awaits, Opened, Told, Named, Moves, Step;
    var t := Step(true, cfg, text, s).s;
    var path' := Next(s, t, path);
    StepWF(cfg, text, s, path);
    StepProgress(true, cfg, text, s);
    RunStep(true, cfg, text, s);
    Foreseen(cfg, text, s, path, final);
    OpenedBy(cfg, s, path, final);
    StepMoves(cfg, text, s, path);
    StepParent(cfg, text, s, path);
    StepTaken(cfg, text, s, path, final);
    if t.nodes == [] {
      NoneTold(cfg, text, s, path, t, final);
    } else {
      NextAhead(cfg, text, t, path', final);
      MovesTold(s, path, t, path', final);
    }
  }

  /** Before the root. */
  lemma NoneTold(cfg: Config, text: string, s: State, path: seq<int>, t: State, final: seq<Node>)
    requires t.ptr <= |text| && WF(cfg, t, Next(s, t, path)) && Run(true, cfg, text, t) == Accept(final)
    requires OnPath(s, path) && Opened(s, path, final) && t.nodes == [] && |s.nodes| <= |t.nodes|
    ensures Opened(t, Next(s, t, path), final) && Told(s, path, t, Next(s, t, path), final)
  {
    Foreseen(cfg, text, t, Next(s, t, path), final);
    OpenedBy(cfg, t, Next(s, t, path), final);
    assert Places(t.nodes, []) == Places(s.nodes, []);
  }

  lemma NumberTold(cfg: Config, text: string, s: State, path: seq<int>, m: State, t: State, final: seq<Node>)
    requires s.ptr <= |text| && WF(cfg, s, path) && AtNumber(cfg, text, s) && Run(true, cfg, text, s) == Accept(final)
    requires m.top == |s.nodes| && |m.nodes| == |s.nodes| + 1 && m.nodes == s.nodes + [m.nodes[m.top]] && Ready(m, path + [m.top])
    requires m.nodes[m.top].kind.KInteger? || m.nodes[m.top].kind.KDouble?
    requires Finish(true, m) == Continue(t) && t.ptr <= |text| && WF(cfg, t, Next(s, t, path)) && Run(true, cfg, text, t) == Accept(final)
    requires |s.nodes| < |final| && final[|s.nodes|].parent == s.top && (path != [] ==> IsContainer(s.nodes[s.top].kind))
    requires Named(s, final) && |t.nodes| == |s.nodes| + 1
    ensures var path' := Next(s, t, path);
            && Opened(s, path, final) && Opened(t, path', final) && Told(s, path, t, path', final)
  {
    hide Run, Covers, Opened, Told, Named, Moves, Finish, Chain;
    Foreseen(cfg, text, s, path, final);
    OpenedBy(cfg, s, path, final);
    LeafMoves(s, m, path);
    NextAhead(cfg, text, t, Next(s, t, path), final);
    MovesTold(s, path, t, Next(s, t, path), final);
  }
}
