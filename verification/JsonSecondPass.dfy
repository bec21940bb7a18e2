/** The second pass of src/json.c, followed against the first. */
module JsonSecondPass {
  import opened JsonParser
  import opened JsonPasses

  /** `n` is how the second pass holds the node that the first pass holds as `m` now and as `f` at its end. */
  ghost predicate Tracks(m: Node, n: Node, f: Node) {
    && n.kind == f.kind && n.parent == f.parent && n.integer == f.integer && n.boolean == f.boolean
    && n.names == f.names
    && n.length == (if IsContainer(f.kind) || f.kind.KString? then m.length else f.length)
    && (IsContainer(f.kind) ==> |n.slots| == f.length)
    && (f.kind.KObject? ==> n.memAt == m.names && (f.length > 0 ==> |n.mem| == f.names))
    && (f.kind.KString? ==> |n.mem| == f.length + 1)
    && Holds(f, m.length)
  }

  /** The node has been given its block, and so many entries lie within it. */
  predicate Holds(f: Node, length: nat) { Given(f) && Within(f, 24 * length) }

  predicate Given(f: Node) { !Refused(f) && !Misplaced(f) }

  predicate Within(f: Node, bytes: nat) { f.kind.KObject? ==> !Spills(f.length, f.names, bytes) }

  ghost predicate Rel(s1: State, s2: State, final: seq<Node>) {
    && s2.ptr == s1.ptr && s2.top == s1.top && s2.flags == s1.flags && s2.strLen == s1.strLen
    && s2.alloc == |s1.nodes| <= |final| == |s2.nodes|
    && (forall i :: 0 <= i < |s1.nodes| ==> Tracks(s1.nodes[i], s2.nodes[i], final[i]))
    && (forall i :: |s1.nodes| <= i < |final| ==> s2.nodes[i] == final[i])
  }

  /** Both passes change only the node at `i`. */
  lemma RelUpdate(s1: State, s2: State, t1: State, t2: State, i: nat, final: seq<Node>)
    requires Rel(s1, s2, final) && i < |s1.nodes|
    requires |t1.nodes| == |s1.nodes| && t1.nodes == s1.nodes[i := t1.nodes[i]]
    requires |t2.nodes| == |s2.nodes| && t2.nodes == s2.nodes[i := t2.nodes[i]]
    requires Tracks(t1.nodes[i], t2.nodes[i], final[i])
    requires t2.ptr == t1.ptr && t2.top == t1.top && t2.flags == t1.flags && t2.strLen == t1.strLen
    requires t2.alloc == s2.alloc
    ensures Rel(t1, t2, final)
  {
  }

  lemma FollowChars(cfg: Config, s1: State, path: seq<int>, s2: State, final: seq<Node>, out: string)
    requires WF(cfg, s1, path) && s1.flags.inString && Rel(s1, s2, final)
    requires Covers(s1.(strLen := s1.strLen + |out|), path, final)
    ensures var r := AddChars(false, s2, out);
            r.Continue? && Rel(AddChars(true, s1, out).s, r.s, final)
  {
    hide Chain;
    assert Grows(s1.nodes[s1.top], final[s1.top]);
    var r := AddChars(false, s2, out);
    RelUpdate(s1, s2, AddChars(true, s1, out).s, r.s, s1.top, final);
  }

  /** What a step of the first pass from `s` to `t` asks of the blocks of the second: a block, a name, or an entry. */
  ghost predicate Fits(s: State, t: State, final: seq<Node>) {
    && (|s.nodes| < |t.nodes| && |s.nodes| < |final| ==> Given(final[|s.nodes|]))
    && (ValidTop(t) && t.top < |s.nodes| && t.top < |final| ==> FitsNode(s.nodes[t.top], t.nodes[t.top], final[t.top]))
  }

  predicate FitsNode(n: Node, m: Node, f: Node) {
    && (m.names != n.names ==> Within(f, 24 * n.length + 12))
    && (m.length != n.length ==> Within(f, 24 * m.length))
  }

  /** How the second pass ends at a step that does not fit. */
  function Broken(s: State, final: seq<Node>): Outcome {
    if |s.nodes| < |final| && Refused(final[|s.nodes|]) then Refuse(s) else Fault
  }

  /** The second pass does what the first does in going from `s` to `t`, if that fits. */
  ghost predicate Mirrors(s: State, t: State, r: Outcome, final: seq<Node>) {
    if Fits(s, t, final) then r.Continue? && Rel(t, r.s, final)
    else r == if |s.nodes| < |t.nodes| then Broken(s, final) else Fault
  }

  lemma FollowFinish(s1: State, path: seq<int>, s2: State, final: seq<Node>)
    requires Ready(s1, path) && Rel(s1, s2, final) && Finish(true, s1).Continue?
    requires Covers(s1, path, final)
    ensures Mirrors(s1, Finish(true, s1).s, Finish(false, s2), final)
  {
    hide Spills, Given;
    assert Tracks(s1.nodes[s1.top], s2.nodes[s1.top], final[s1.top]) && path[|path| - 1] == s1.top;
    assert Grows(s1.nodes[s1.top], final[s1.top]);
    FinishParent(s1, path);
    hide Chain;
    if |path| > 1 {
      var k := |path| - 2;
      var p := path[k];
      assert Grows(s1.nodes[p], final[p]) && s1.nodes[p].length < final[p].length;
      assert Tracks(s1.nodes[p], s2.nodes[p], final[p]) && IsContainer(final[p].kind);
      if Fits(s1, Finish(true, s1).s, final) {
        RelUpdate(s1, s2, Finish(true, s1).s, Finish(false, s2).s, p, final);
      }
    }
  }

  lemma FinishParent(s: State, path: seq<int>)
    requires Ready(s, path)
    ensures var p := s.nodes[s.top].parent;
            if |path| == 1 then p == NONE
            else p == path[|path| - 2] && 0 <= p < s.top && IsContainer(s.nodes[p].kind)
  {
    assert path[|path| - 1] == s.top;
    if |path| == 1 {
      assert s.nodes[path[0]].parent == NONE;
    } else {
      var k := |path| - 2;
      assert s.nodes[path[k + 1]].parent == path[k] && IsContainer(s.nodes[path[k]].kind);
    }
  }

  lemma FollowNewValue(cfg: Config, s1: State, s2: State, kind: Kind, final: seq<Node>)
    requires Rel(s1, s2, final) && s1.alloc == |s1.nodes| < |final|
    requires Grows(FreshNode(kind, s1.top), final[|s1.nodes|])
    ensures Mirrors(s1, NewValue(true, cfg, s1, kind).s, NewValue(false, cfg, s2, kind), final)
  {
    hide Refused, Misplaced, Spills;
    NothingSpills(final[|s1.nodes|]);
  }

  lemma NothingSpills(f: Node)
    ensures Within(f, 0) && (!f.kind.KObject? ==> Given(f))
  {
  }

  lemma FollowNul(cfg: Config, s1: State, path: seq<int>, s2: State, final: seq<Node>)
    requires WF(cfg, s1, path) && s1.flags.inString && Rel(s1, s2, final) && Covers(s1, path, final)
    ensures var r := Poke(s2, "\0"); r.Continue? && r.s.alloc == s2.alloc && Rel(s1, r.s, final)
  {
    hide Chain;
    assert Grows(s1.nodes[s1.top], final[s1.top]) && Tracks(s1.nodes[s1.top], s2.nodes[s2.top], final[s2.top]);
    RelUpdate(s1, s2, s1, Poke(s2, "\0").s, s1.top, final);
  }

  lemma FollowCloseKey(cfg: Config, s1: State, path: seq<int>, s2: State, final: seq<Node>)
    requires WF(cfg, s1, path) && s1.flags.inString && Rel(s1, s2, final) && Covers(s1, path, final)
    requires s1.nodes[s1.top].kind.KObject?
    ensures Mirrors(s1, CloseString(true, s1).s, CloseString(false, s2), final)
  {
    hide Chain, Finish, Poke, Spills, Given;
    FollowNul(cfg, s1, path, s2, final);
    var p := Poke(s2, "\0").s;
    assert Grows(s1.nodes[s1.top], final[s1.top]) && Tracks(s1.nodes[s1.top], p.nodes[s2.top], final[s2.top]);
    if Fits(s1, CloseString(true, s1).s, final) {
      RelUpdate(s1, p, CloseString(true, s1).s, CloseString(false, s2).s, s1.top, final);
    }
  }

  lemma FollowClose(cfg: Config, s1: State, path: seq<int>, s2: State, final: seq<Node>)
    requires WF(cfg, s1, path) && s1.flags.inString && !s1.flags.escaped && Rel(s1, s2, final)
    requires Covers(s1, path, final)
    requires var r := CloseString(true, s1); r.Continue? && Covers(r.s, Next(s1, r.s, path), final)
    ensures Mirrors(s1, CloseString(true, s1).s, CloseString(false, s2), final)
  {
    hide Chain, Finish, Poke, Covers, Given, Spills, Fits;
    var n := s1.nodes[s1.top];
    if n.kind.KString? {
      FollowNul(cfg, s1, path, s2, final);
      var p := Poke(s2, "\0").s;
      var f := s1.flags.(inString := false);
      var t1 := SetTop(s1.(ptr := s1.ptr + 1, flags := f), n.(length := s1.strLen));
      var t2 := SetTop(p.(ptr := s1.ptr + 1, flags := f), p.nodes[p.top].(length := s1.strLen));
      SetTopWF(cfg, s1, t1, path);
      FinishWF(cfg, t1, path);
      FinishBack(cfg, t1, path, final);
      CoversTop(s1, path, final);
      RelUpdate(s1, p, t1, t2, s1.top, final);
      FollowFinish(t1, path, t2, final);
      FinishParent(t1, path);
      SameFits(s1, t1, Finish(true, t1).s, final);
    } else {
      FollowCloseKey(cfg, s1, path, s2, final);
    }
  }

  /** Whether it fits does not depend on what a string, a number or a constant holds. */
  lemma SameFits(s: State, s': State, t: State, final: seq<Node>)
    requires ValidTop(s) && |s'.nodes| == |s.nodes| && s'.nodes == s.nodes[s.top := s'.nodes[s.top]]
    requires s.top < |final| ==> !final[s.top].kind.KObject?
    ensures Fits(s, t, final) <==> Fits(s', t, final)
  {
    hide Given, Spills;
  }

  lemma FollowString(cfg: Config, text: string, s1: State, path: seq<int>, s2: State, final: seq<Node>)
    requires s1.ptr <= |text| && WF(cfg, s1, path) && s1.flags.inString && Rel(s1, s2, final)
    requires Covers(s1, path, final)
    requires var r := StringStep(true, text, s1); r.Continue? && Covers(r.s, Next(s1, r.s, path), final)
    ensures Mirrors(s1, StringStep(true, text, s1).s, StringStep(false, text, s2), final)
  {
    hide Chain, CloseString, Poke, DecodeEscape, Tracks, Grows, Given, Within;
    var b := At(text, s1.ptr);
    if s1.flags.escaped {
      var d := DecodeEscape(text, s1.ptr);
      var f := s1.flags.(escaped := false);
      var t1 := s1.(ptr := d.next, flags := f);
      FollowChars(cfg, t1, path, s2.(ptr := d.next, flags := f), final, d.out);
    } else if b == '\\' {
    } else if b == '"' {
      FollowClose(cfg, s1, path, s2, final);
    } else {
      FollowChars(cfg, s1.(ptr := s1.ptr + 1), path, s2.(ptr := s1.ptr + 1), final, [b]);
    }
  }

  lemma FollowLiteral(cfg: Config, text: string, s1: State, path: seq<int>, s2: State,
                      word: string, kind: Kind, truth: bool, final: seq<Node>)
    requires s1.alloc == |s1.nodes| && OnPath(s1, path) && (path != [] ==> IsContainer(s1.nodes[s1.top].kind))
    requires s1.flags == Flags(false, false, false, false, false, false, false, false)
    requires kind == KBoolean || kind == KNull
    requires Rel(s1, s2, final)
    requires var r := Literal(true, cfg, text, s1, word, kind, truth); r.Continue? && Covers(r.s, Next(s1, r.s, path), final)
    ensures Mirrors(s1, Literal(true, cfg, text, s1, word, kind, truth).s, Literal(false, cfg, text, s2, word, kind, truth), final)
  {
    hide Finish, NewValue, Chain, Covers, Within, Refused, Misplaced;
    NewValueWF(cfg, s1, path, kind);
    var r := NewValue(true, cfg, s1, kind);
    var path' := path + [r.s.top];
    var n := r.s.nodes[r.s.top];
    var t1 := SetTop(r.s, n.(boolean := truth || n.boolean)).(ptr := s1.ptr + |word|);
    assert OnPath(t1, path') by {
      ChainSame(r.s.nodes, t1.nodes, path');
    }
    FinishWF(cfg, t1, path');
    assert path'[..|path|] == path;
    FinishBack(cfg, t1, path', final);
    CoversTop(t1, path', final);
    FollowNewValue(cfg, s1, s2, kind, final);
    NothingSpills(final[|s1.nodes|]);
    var r2 := NewValue(false, cfg, s2, kind);
    var m := r2.s.nodes[r2.s.top];
    var t2 := SetTop(r2.s, m.(boolean := truth || m.boolean)).(ptr := s1.ptr + |word|);
    RelUpdate(r.s, r2.s, t1, t2, r.s.top, final);
    FollowFinish(t1, path', t2, final);
    FinishParent(t1, path');
    LeafFits(s1, t1, Finish(true, t1).s, final);
  }

  /** A value that is no object takes no block, so it fits if its entry does. */
  lemma LeafFits(s: State, s': State, t: State, final: seq<Node>)
    requires |s'.nodes| == |s.nodes| + 1 <= |final| && s'.nodes[..|s.nodes|] == s.nodes && |t.nodes| == |s'.nodes|
    requires !final[|s.nodes|].kind.KObject? && (t.top == |s.nodes| || t.top < |s.nodes|)
    ensures Fits(s', t, final) <==> Fits(s, t, final)
    ensures !Refused(final[|s.nodes|])
  {
    hide Spills, Wrapped;
    assert forall i :: 0 <= i < |s.nodes| ==> s'.nodes[..|s.nodes|][i] == s'.nodes[i];
  }

  lemma CoversTop(s: State, path: seq<int>, final: seq<Node>)
    requires Covers(s, path, final) && ValidTop(s)
    ensures |s.nodes| <= |final| && Grows(s.nodes[s.top], final[s.top])
  {
  }

  // ----- numbers: many steps of the first pass, one of the second -----

  /** After a value, a character of a number cannot follow. */
  lemma NumberCharRejected(cfg: Config, text: string, s: State, path: seq<int>)
    requires s.ptr <= |text| && WF(cfg, s, path) && s.flags.needComma && !s.flags.lineComment && !s.flags.blockComment
    requires IsNumberChar(At(text, s.ptr))
    ensures Step(true, cfg, text, s).Reject?
  {
    hide Finish, Literal, NumberStart, Chain;
  }

  lemma SkipNumberStops(text: string, i: nat, q: nat)
    requires i <= q <= |text|
    requires forall k :: i <= k < q ==> IsNumberChar(text[k])
    requires !IsNumberChar(At(text, q))
    ensures SkipNumber(text, i) == q
  {
  }

  /** Where the first pass, reading a number on the way to accepting, ends it: the state `m` just
      before the number is finished. */
  lemma {:induction false} NumberRun(cfg: Config, text: string, s: State, path: seq<int>, final: seq<Node>)
    returns (m: State)
    requires s.ptr <= |text| && WF(cfg, s, path) && InNumber(s)
    requires Run(true, cfg, text, s) == Accept(final)
    ensures m.top == s.top && m.flags == s.flags && m.strLen == s.strLen && Ready(m, path)
    ensures |m.nodes| == |s.nodes| && m.nodes == s.nodes[s.top := m.nodes[s.top]]
    ensures m.nodes[s.top].parent == s.nodes[s.top].parent
    ensures m.nodes[s.top].kind.KInteger? || m.nodes[s.top].kind.KDouble?
    ensures s.ptr <= m.ptr <= |text| && forall k :: s.ptr <= k < m.ptr ==> IsNumberChar(text[k])
    ensures var r := Finish(true, m);
            && r.Continue? && Measure(cfg, text, r.s) < Measure(cfg, text, s)
            && Run(true, cfg, text, r.s) == Accept(final)
    decreases Measure(cfg, text, s)
  {
    hide Step, NumberStep, Finish, Wrap64, Chain;
    var r := Step(true, cfg, text, s);
    NumberShape(cfg, text, s);
    StepProgress(true, cfg, text, s);
    NumberWF(cfg, text, s, path);
    if r.s.flags.needComma {
      m := Signed(s);
      SetTopWF(cfg, s, m, path);
    } else {
      SetTopWF(cfg, s, r.s, path);
      m := NumberRun(cfg, text, r.s, path, final);
    }
  }

  lemma NumberShape(cfg: Config, text: string, s: State)
    requires s.ptr <= |text| && InNumber(s) && !s.flags.lineComment && !s.flags.blockComment
    ensures var r := Step(true, cfg, text, s);
            && (r.Continue? || r.Reject? || r.Hang?  || r.Fault?)
            && (r.Continue? ==>
                  && r == NumberStep(true, text, s)
                  && if r.s.flags.needComma then r == Finish(true, Signed(s))
                     else
                       && IsNumberChar(At(text, s.ptr)) && r.s.ptr == s.ptr + 1 && InNumber(r.s)
                       && r.s.flags == s.flags && r.s.strLen == s.strLen && r.s.top == s.top
                       && |r.s.nodes| == |s.nodes| && r.s.nodes == s.nodes[s.top := r.s.nodes[s.top]]
                       && r.s.nodes[s.top].parent == s.nodes[s.top].parent && !IsContainer(r.s.nodes[s.top].kind))
  {
    hide Finish, Wrap64;
  }

  ghost predicate AtNumber(cfg: Config, text: string, s: State) {
    var b := At(text, s.ptr);
    && !s.flags.inString && !s.flags.done && s.flags.seekValue && !s.flags.needComma && !s.flags.needColon
    && !s.flags.lineComment && !s.flags.blockComment && (IsDigit(b) || b == '-')
  }

  /** At a number: the state `m` of the first pass just before the number is finished. */
  lemma NumberAhead(cfg: Config, text: string, s: State, path: seq<int>, final: seq<Node>)
    returns (m: State)
    requires s.ptr <= |text| && WF(cfg, s, path) && AtNumber(cfg, text, s) && Run(true, cfg, text, s) == Accept(final)
    ensures m.top == |s.nodes| && m.flags == s.flags.(seekValue := false) && m.strLen == s.strLen
    ensures Ready(m, path + [m.top]) && |m.nodes| == |s.nodes| + 1 && m.nodes == s.nodes + [m.nodes[m.top]]
    ensures m.nodes[m.top].parent == s.top && (m.nodes[m.top].kind.KInteger? || m.nodes[m.top].kind.KDouble?)
    ensures m.ptr == SkipNumber(text, s.ptr)
    ensures var r := Finish(true, m); var path' := if path == [] then [m.top] else path;
            && r.Continue? && Run(true, cfg, text, r.s) == Accept(final)
            && WF(cfg, r.s, path') && Measure(cfg, text, r.s) < Measure(cfg, text, s)
            && path' == Next(s, r.s, path) && |r.s.nodes| == |s.nodes| + 1
  {
    hide SkipNumber, Finish, NewValue, Chain, Step, Mode;
    var s' := s.(flags := s.flags.(seekValue := false));
    StepProgress(true, cfg, text, s);
    AtNumberStep(true, cfg, text, s);
    SeekTop(cfg, text, s, path);
    NewValueWF(cfg, s', path, KInteger);
    NumberStartWF(cfg, text, s', path);
    var r := NumberStart(true, cfg, text, s').s;
    var path1 := path + [r.top];
    assert path1[..|path|] == path;
    m := NumberRun(cfg, text, r, path1, final);
    FinishWF(cfg, m, path1);
    FinishParent(m, path1);
    NumberStops(cfg, text, s.ptr, m, Finish(true, m).s, if path == [] then path1 else path, final);
  }

  lemma SeekTop(cfg: Config, text: string, s: State, path: seq<int>)
    requires WF(cfg, s, path) && AtNumber(cfg, text, s)
    ensures path != [] ==> ValidTop(s) && IsContainer(s.nodes[s.top].kind)
    ensures s.flags == Flags(false, true, false, false, false, false, false, false)
    ensures s.top < |s.nodes|
  {
  }

  lemma AtNumberStep(first: bool, cfg: Config, text: string, s: State)
    requires s.ptr <= |text| && AtNumber(cfg, text, s)
    ensures Step(first, cfg, text, s) == NumberStart(first, cfg, text, s.(flags := s.flags.(seekValue := false)))
  {
    hide NumberStart;
  }

  /** In the second pass the same number is one step; then the passes meet again. */
  lemma FollowNumber(cfg: Config, text: string, s1: State, path: seq<int>, s2: State, final: seq<Node>)
    returns (m: State, t: State, path': seq<int>)
    requires s1.ptr <= |text| && WF(cfg, s1, path) && AtNumber(cfg, text, s1) && Rel(s1, s2, final)
    requires Run(true, cfg, text, s1) == Accept(final)
    ensures m.top == |s1.nodes| && |m.nodes| == |s1.nodes| + 1 && m.nodes == s1.nodes + [m.nodes[m.top]] && Ready(m, path + [m.top])
    ensures (m.nodes[m.top].kind.KInteger? || m.nodes[m.top].kind.KDouble?) && Finish(true, m) == Continue(t)
    ensures path' == Next(s1, t, path) && |t.nodes| == |s1.nodes| + 1
    ensures |s1.nodes| < |final| && final[|s1.nodes|].parent == s1.top && (path != [] ==> IsContainer(s1.nodes[s1.top].kind))
    ensures t.ptr <= |text| && t.flags.needComma && WF(cfg, t, path') && Measure(cfg, text, t) < Measure(cfg, text, s1)
    ensures Run(true, cfg, text, t) == Accept(final)
    ensures Mirrors(s1, t, Step(false, cfg, text, s2), final)
  {
    hide SkipNumber, Finish, Chain, Covers, Run, Measure, Step, Mode, Grows, Within, Refused, Misplaced;
    AtNumberStep(false, cfg, text, s2);
    m := NumberAhead(cfg, text, s1, path, final);
    t := Finish(true, m).s;
    path' := if path == [] then [m.top] else path;
    var path1 := path + [m.top];
    assert path1[..|path|] == path;
    SeekTop(cfg, text, s1, path);
    Foreseen(cfg, text, t, path', final);
    FinishBack(cfg, m, path1, final);
    CoversTop(m, path1, final);
    var m2 := NumberNode(cfg, s1, s2, m, final);
    FollowFinish(m, path1, m2, final);
    FinishParent(m, path1);
    LeafFits(s1, m, t, final);
  }

  lemma NumberNode(cfg: Config, s1: State, s2: State, m: State, final: seq<Node>) returns (m2: State)
    requires Rel(s1, s2, final) && s1.alloc == |s1.nodes| < |final|
    requires m.top == |s1.nodes| && m.flags == s1.flags.(seekValue := false) && m.strLen == s1.strLen
    requires |m.nodes| == |s1.nodes| + 1 && m.nodes == s1.nodes + [m.nodes[m.top]] && Grows(m.nodes[m.top], final[m.top])
    requires m.nodes[m.top].kind.KInteger? || m.nodes[m.top].kind.KDouble?
    ensures Rel(m, m2, final)
    ensures var r := NewValue(false, cfg, s2.(flags := m.flags), KInteger); r.Continue? && m2 == r.s.(ptr := m.ptr)
  {
    m2 := NewValue(false, cfg, s2.(flags := m.flags), KInteger).s.(ptr := m.ptr);
  }

  lemma NumberStops(cfg: Config, text: string, i: nat, m: State, t: State, path: seq<int>, final: seq<Node>)
    requires Finish(true, m) == Continue(t) && WF(cfg, t, path) && !m.flags.lineComment && !m.flags.blockComment
    requires i <= m.ptr <= |text| && forall k :: i <= k < m.ptr ==> IsNumberChar(text[k])
    requires Run(true, cfg, text, t) == Accept(final)
    ensures SkipNumber(text, i) == m.ptr
  {
    hide Finish, WF, SkipNumber, Step;
    if IsNumberChar(At(text, m.ptr)) {
      NumberCharRejected(cfg, text, t, path);
      assert false;
    }
    SkipNumberStops(text, i, m.ptr);
  }

  // ----- the passes in step -----

  lemma FollowOpen(cfg: Config, text: string, s1: State, path: seq<int>, s2: State, final: seq<Node>)
    requires s1.ptr <= |text| && WF(cfg, s1, path) && Rel(s1, s2, final)
    requires s1.flags.seekValue && !s1.flags.inString && !s1.flags.done && !s1.flags.needComma && !s1.flags.needColon
    requires var b := At(text, s1.ptr); b == '{' || b == '[' || b == '"'
    requires var r := SeekStep(true, cfg, text, s1);
             r.Continue? && |r.s.nodes| <= |final| && ValidTop(r.s) && Grows(r.s.nodes[r.s.top], final[r.s.top])
    ensures Mirrors(s1, SeekStep(true, cfg, text, s1).s, SeekStep(false, cfg, text, s2), final)
  {
    hide Finish, Literal, NumberStart, Rel, Chain, Given, Within, Refused;
    var b := At(text, s1.ptr);
    var kind := if b == '{' then KObject else if b == '[' then KArray else KString;
    var r := SeekStep(true, cfg, text, s1).s;
    var t1 := s1.(ptr := r.ptr, flags := r.flags, strLen := r.strLen);
    var t2 := s2.(ptr := r.ptr, flags := r.flags, strLen := r.strLen);
    RelFlags(s1, s2, t1, t2, final);
    assert SeekStep(true, cfg, text, s1) == NewValue(true, cfg, t1, kind);
    assert SeekStep(false, cfg, text, s2) == NewValue(false, cfg, t2, kind);
    FollowNewValue(cfg, t1, t2, kind, final);
  }

  lemma RelFlags(s1: State, s2: State, t1: State, t2: State, final: seq<Node>)
    requires Rel(s1, s2, final)
    requires t1 == s1.(ptr := t1.ptr, flags := t1.flags, strLen := t1.strLen)
    requires t2 == s2.(ptr := t1.ptr, flags := t1.flags, strLen := t1.strLen)
    ensures Rel(t1, t2, final) && s2.ptr == s1.ptr && s2.flags == s1.flags && s2.strLen == s1.strLen
  {
  }

  lemma FollowSeek(cfg: Config, text: string, s1: State, path: seq<int>, s2: State, final: seq<Node>)
    requires s1.ptr <= |text| && WF(cfg, s1, path) && Rel(s1, s2, final)
    requires s1.flags.seekValue && !s1.flags.inString && !s1.flags.done && !s1.flags.lineComment && !s1.flags.blockComment
    requires !AtNumber(cfg, text, s1)
    requires Covers(s1, path, final)
    requires var r := SeekStep(true, cfg, text, s1); r.Continue? && Covers(r.s, Next(s1, r.s, path), final)
    ensures Mirrors(s1, SeekStep(true, cfg, text, s1).s, SeekStep(false, cfg, text, s2), final)
  {
    hide Finish, NewValue, Literal, NumberStart, Chain, Tracks, Grows, Given, Within, Refused;
    var b := At(text, s1.ptr);
    var s' := s1.(flags := s1.flags.(seekValue := false));
    var s'2 := s2.(flags := s1.flags.(seekValue := false));
    if IsSpace(b) {
    } else if b == ']' {
      var f := s1.flags.(needComma := false, seekValue := false);
      var t1 := s1.(ptr := s1.ptr + 1, flags := f);
      FollowBracket(cfg, s1, t1, path, s2, final);
    } else if s1.flags.needComma || s1.flags.needColon {
    } else if b == 't' {
      FollowLiteral(cfg, text, s', path, s'2, "true", KBoolean, true, final);
    } else if b == 'f' {
      FollowLiteral(cfg, text, s', path, s'2, "false", KBoolean, false, final);
    } else if b == 'n' {
      FollowLiteral(cfg, text, s', path, s'2, "null", KNull, false, final);
    } else {
      NewValueWF(cfg, s', path, KNull);
      FollowOpen(cfg, text, s1, path, s2, final);
    }
  }

  /** A closing bracket or brace. */
  lemma FollowBracket(cfg: Config, s1: State, t1: State, path: seq<int>, s2: State, final: seq<Node>)
    requires WF(cfg, s1, path) && Rel(s1, s2, final) && Covers(s1, path, final) && ValidTop(s1)
    requires t1 == s1.(ptr := t1.ptr, flags := t1.flags) && Finish(true, t1).Continue?
    requires t1.flags == Flags(false, false, false, false, false, false, false, false)
    requires IsContainer(s1.nodes[s1.top].kind)
    ensures IsContainer(s2.nodes[s2.top].kind) && s2.nodes[s2.top].kind == s1.nodes[s1.top].kind
    ensures Mirrors(s1, Finish(true, t1).s, Finish(false, s2.(ptr := t1.ptr, flags := t1.flags)), final)
  {
    hide Finish, Chain;
    CoversTop(s1, path, final);
    assert Tracks(s1.nodes[s1.top], s2.nodes[s1.top], final[s1.top]);
    FollowFinish(t1, path, s2.(ptr := t1.ptr, flags := t1.flags), final);
  }

  lemma FollowObject(cfg: Config, text: string, s1: State, path: seq<int>, s2: State, final: seq<Node>)
    requires WF(cfg, s1, path) && ValidTop(s1) && s1.nodes[s1.top].kind.KObject? && Rel(s1, s2, final)
    requires !s1.flags.seekValue && !s1.flags.inString && !s1.flags.done && !s1.flags.lineComment && !s1.flags.blockComment
    requires Covers(s1, path, final) && ObjectStep(true, text, s1).Continue?
    ensures Mirrors(s1, ObjectStep(true, text, s1).s, ObjectStep(false, text, s2), final)
  {
    hide Finish, Chain, Tracks, Grows, Given, Within, Refused;
    if At(text, s1.ptr) == '}' {
      var t1 := s1.(ptr := s1.ptr + 1, flags := s1.flags.(needComma := false));
      FollowBracket(cfg, s1, t1, path, s2, final);
    }
  }

  /** One step of each pass, away from numbers. */
  lemma FollowStep(cfg: Config, text: string, s1: State, path: seq<int>, s2: State, final: seq<Node>)
    requires s1.ptr <= |text| && WF(cfg, s1, path) && Rel(s1, s2, final)
    requires !AtNumber(cfg, text, s1) && !InNumber(s1)
    requires Covers(s1, path, final)
    requires var r := Step(true, cfg, text, s1); r.Continue? && Covers(r.s, Next(s1, r.s, path), final)
    ensures Mirrors(s1, Step(true, cfg, text, s1).s, Step(false, cfg, text, s2), final)
  {
    hide Given, Within, Refused, StringStep, SeekStep, ObjectStep, NumberStep, CommentStep, CommentOpen, Chain, Covers, Tracks, Grows;
    SameTop(cfg, s1, path, s2, final);
    if s1.flags.inString {
      FollowString(cfg, text, s1, path, s2, final);
    } else if cfg.comments && (s1.flags.lineComment || s1.flags.blockComment || At(text, s1.ptr) == '/') {
      FollowComment(cfg, text, s1, s2, final);
    } else if s1.flags.done {
    } else if s1.flags.seekValue {
      FollowSeek(cfg, text, s1, path, s2, final);
    } else {
      FollowObject(cfg, text, s1, path, s2, final);
    }
  }

  lemma SameTop(cfg: Config, s1: State, path: seq<int>, s2: State, final: seq<Node>)
    requires Rel(s1, s2, final) && Covers(s1, path, final)
    ensures s2.top == s1.top && s2.ptr == s1.ptr && s2.flags == s1.flags && (ValidTop(s1) ==> ValidTop(s2))
    ensures ValidTop(s1) ==> (s1.nodes[s1.top].kind.KObject? <==> s2.nodes[s2.top].kind.KObject?)
  {
    if ValidTop(s1) {
      assert Grows(s1.nodes[s1.top], final[s1.top]) && Tracks(s1.nodes[s1.top], s2.nodes[s1.top], final[s1.top]);
    }
  }

  lemma FollowComment(cfg: Config, text: string, s1: State, s2: State, final: seq<Node>)
    requires Rel(s1, s2, final) && s2.top == s1.top && (ValidTop(s1) ==> ValidTop(s2))
    requires ValidTop(s1) ==> (s1.nodes[s1.top].kind.KObject? <==> s2.nodes[s2.top].kind.KObject?)
    ensures var r := CommentStep(text, s1); r.Continue? ==> Mirrors(s1, r.s, CommentStep(text, s2), final)
    ensures var r := CommentOpen(text, s1); r.Continue? ==> Mirrors(s1, r.s, CommentOpen(text, s2), final)
  {
    hide Rel, Mirrors;
    RelFlags(s1, s2, s1, s2.(ptr := s1.ptr, flags := s1.flags, strLen := s1.strLen), final);
    var r, o := CommentStep(text, s1), CommentOpen(text, s1);
    if r.Continue? { FollowFlags(s1, s2, r.s, CommentStep(text, s2), final); }
    if o.Continue? { FollowFlags(s1, s2, o.s, CommentOpen(text, s2), final); }
  }

  lemma FollowFlags(s1: State, s2: State, t1: State, r: Outcome, final: seq<Node>)
    requires Rel(s1, s2, final)
    requires t1 == s1.(ptr := t1.ptr, flags := t1.flags) && r == Continue(s2.(ptr := t1.ptr, flags := t1.flags))
    ensures Mirrors(s1, t1, r, final)
  {
    hide Tracks, Given, Within;
  }

  /** Every block is filled to its end: as many entries, string bytes and name bytes as it has room for. */
  ghost predicate Complete(nodes: seq<Node>, final: seq<Node>) {
    && |nodes| == |final|
    && forall i :: 0 <= i < |nodes| ==>
         var n, f := nodes[i], final[i];
         && n.kind == f.kind && n.parent == f.parent && n.integer == f.integer && n.boolean == f.boolean
         && n.length == f.length && n.names == f.names
         && (IsContainer(n.kind) ==> |n.slots| == n.length)
         && (n.kind.KObject? ==> n.memAt == f.names && (n.length > 0 ==> |n.mem| == f.names))
         && (n.kind.KString? ==> |n.mem| == n.length + 1)
         && Holds(f, f.length)
  }

  lemma FollowEnd(cfg: Config, text: string, s1: State, path: seq<int>, s2: State, final: seq<Node>)
    requires s1.ptr <= |text| && WF(cfg, s1, path) && Rel(s1, s2, final) && Step(true, cfg, text, s1) == Accept(final)
    ensures s2.ptr <= |text| && Step(false, cfg, text, s2) == Accept(s2.nodes) && Complete(s2.nodes, final)
  {
    AcceptCovers(cfg, text, s1, path, final);
    hide StringStep, SeekStep, ObjectStep, NumberStep, Chain;
    forall i | 0 <= i < |final|
      ensures Tracks(final[i], s2.nodes[i], final[i])
    {
      assert Tracks(s1.nodes[i], s2.nodes[i], final[i]);
    }
  }

  lemma CommaNotInNumber(s: State)
    requires s.flags.needComma
    ensures !InNumber(s)
  {
  }

  /** Only the start of a number leads into one. */
  lemma StaysOut(cfg: Config, text: string, s: State, path: seq<int>)
    requires s.ptr <= |text| && WF(cfg, s, path) && !InNumber(s) && !AtNumber(cfg, text, s)
    ensures var r := Step(true, cfg, text, s); r.Continue? ==> !InNumber(r.s)
  {
    hide Chain, DecodeEscape, NewValue, Finish, NumberStart;
    if s.flags.inString {
      hide SeekStep, ObjectStep;
    } else if cfg.comments && (s.flags.lineComment || s.flags.blockComment || At(text, s.ptr) == '/') {
      hide SeekStep, StringStep, ObjectStep;
    } else if s.flags.seekValue {
      hide StringStep, ObjectStep;
    } else {
      hide StringStep, SeekStep;
    }
  }
}
