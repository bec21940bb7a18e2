/**
 The two passes of src/json.c run in step.

 If the first pass accepts, the second follows it: it takes the nodes in the same order, stops
 skipping a number exactly where the first pass stopped reading it, never misses a block, and
 leaves every block filled to the count the first pass had reached. The nodes then form a tree.
 */
module JsonPasses {
  import opened JsonParser

  // ----- well-formed states of the first pass -----

  /** `path` leads from the root to the value being read. */
  ghost predicate Chain(nodes: seq<Node>, path: seq<int>) {
    && (path != [] ==> 0 <= path[0] < |nodes| && nodes[path[0]].parent == NONE)
    && (forall k :: 0 <= k < |path| ==> 0 <= path[k] < |nodes|)
    && (forall j, k :: 0 <= j < k < |path| ==> path[j] < path[k] && IsContainer(nodes[path[j]].kind))
    && (forall j, k :: 0 <= j < k < |path| && k == j + 1 ==> nodes[path[k]].parent == path[j])
  }

  ghost predicate Mode(cfg: Config, s: State) {
    var f := s.flags;
    && (f.escaped ==> f.inString)
    && (f.lineComment || f.blockComment ==> cfg.comments && !f.inString && !InNumber(s))
    && if f.inString then
         && ValidTop(s)
         && ((s.nodes[s.top].kind.KString? && s.nodes[s.top].length == 0) || s.nodes[s.top].kind.KObject?)
         && !f.seekValue && !f.done && !f.needColon && !f.needComma
       else if f.done then s.top == 0 && !f.seekValue && !f.needColon
       else if f.seekValue then
         || (s.top == NONE && !f.needComma && !f.needColon)
         || (ValidTop(s) && s.nodes[s.top].kind.KArray? && !f.needColon)
         || (ValidTop(s) && s.nodes[s.top].kind.KObject? && !f.needComma)
       else
         ValidTop(s) && !f.needColon && (s.nodes[s.top].kind.KObject? || InNumber(s))
  }

  ghost predicate OnPath(s: State, path: seq<int>) {
    && Chain(s.nodes, path)
    && (path != [] ==> path[0] == 0 && path[|path| - 1] == s.top)
    && (path == [] <==> s.nodes == [])
    && (path == [] <==> s.top == NONE)
  }

  ghost predicate WF(cfg: Config, s: State, path: seq<int>) {
    && s.alloc == |s.nodes|
    && OnPath(s, path)
    && Mode(cfg, s)
  }

  /** The path after a step of the first pass. */
  ghost function Next(s: State, s': State, path: seq<int>): seq<int> {
    if s'.top == s.top then path
    else if |s'.nodes| > |s.nodes| then path + [s'.top]
    else if path == [] then path
    else path[..|path| - 1]
  }

  /** A value in progress that `Finish` may be applied to. */
  ghost predicate Ready(s: State, path: seq<int>) {
    && s.alloc == |s.nodes| && OnPath(s, path) && ValidTop(s)
    && s.flags == Flags(s.flags.needComma, false, false, false, false, false, false, false)
  }

  /** Chains do not depend on what nodes count or hold. */
  lemma ChainSame(nodes: seq<Node>, nodes': seq<Node>, path: seq<int>)
    requires Chain(nodes, path) && |nodes| <= |nodes'|
    requires forall i :: 0 <= i < |nodes| ==>
               nodes'[i].parent == nodes[i].parent && IsContainer(nodes'[i].kind) == IsContainer(nodes[i].kind)
    ensures Chain(nodes', path)
  {
  }

  lemma FinishWF(cfg: Config, s: State, path: seq<int>)
    requires Ready(s, path)
    ensures var r := Finish(true, s);
            && (r.Continue? || r.Reject?)
            && (r.Continue? ==> |r.s.nodes| == |s.nodes| && (r.s.top == s.top <==> |path| == 1)
                                && WF(cfg, r.s, if |path| == 1 then path else path[..|path| - 1]))
  {
    assert path[|path| - 1] == s.top;
    var r := Finish(true, s);
    if |path| == 1 {
      assert s.nodes[path[0]].parent == NONE;
    } else {
      var k := |path| - 2;
      assert s.nodes[path[k + 1]].parent == path[k] && IsContainer(s.nodes[path[k]].kind);
      if r.Continue? {
        ChainSame(s.nodes, r.s.nodes, path);
      }
    }
  }

  lemma NewValueWF(cfg: Config, s: State, path: seq<int>, kind: Kind)
    requires s.alloc == |s.nodes| && OnPath(s, path)
    requires path != [] ==> IsContainer(s.nodes[s.top].kind)
    ensures var r := NewValue(true, cfg, s, kind);
            && r.Continue? && r.s.flags == s.flags && r.s.ptr == s.ptr && r.s.num == s.num && r.s.strLen == s.strLen
            && r.s.alloc == |r.s.nodes|
            && r.s.nodes == s.nodes + [FreshNode(kind, s.top)] && r.s.top == |s.nodes|
            && OnPath(r.s, path + [r.s.top])
  {
  }

  // ----- the first pass never misses a node -----

  ghost predicate StepsWell(cfg: Config, s: State, path: seq<int>, r: Outcome) {
    && !r.Fault?
    && (r.Continue? ==> WF(cfg, r.s, Next(s, r.s, path)))
  }

  /** Steps that change only what the node at `top` counts or holds. */
  lemma SetTopWF(cfg: Config, s: State, s': State, path: seq<int>)
    requires WF(cfg, s, path) && ValidTop(s)
    requires |s'.nodes| == |s.nodes| && s'.top == s.top && s'.alloc == s.alloc
    requires s'.nodes == s.nodes[s.top := s'.nodes[s.top]]
    requires s'.nodes[s.top].parent == s.nodes[s.top].parent
    requires IsContainer(s'.nodes[s.top].kind) == IsContainer(s.nodes[s.top].kind)
    ensures OnPath(s', path)
    ensures Mode(cfg, s') ==> WF(cfg, s', Next(s, s', path))
  {
    ChainSame(s.nodes, s'.nodes, path);
  }

  lemma EscapeFrame(text: string, s: State)
    requires s.ptr < |text|
    ensures var r := EscapeStep(true, text, s);
            && !r.Fault? && !r.Accept? && !r.Hang?
            && (r.Continue? ==> r.s.nodes == s.nodes && r.s.top == s.top && r.s.alloc == s.alloc
                                && r.s.flags == s.flags.(escaped := false) && s.strLen <= r.s.strLen && r.s.num == s.num)
  {
    hide DecodeEscape;
  }

  lemma CloseWF(cfg: Config, s: State, path: seq<int>)
    requires WF(cfg, s, path) && s.flags.inString && !s.flags.escaped
    ensures StepsWell(cfg, s, path, CloseString(true, s))
  {
    hide Finish, Chain;
    var n := s.nodes[s.top];
    if n.kind.KString? {
      var s1 := SetTop(s.(ptr := s.ptr + 1, flags := s.flags.(inString := false)), n.(length := s.strLen));
      SetTopWF(cfg, s, s1, path);
      FinishWF(cfg, s1, path);
    } else {
      var s1 := CloseString(true, s).s;
      SetTopWF(cfg, s, s1, path);
    }
  }

  lemma StringWF(cfg: Config, text: string, s: State, path: seq<int>)
    requires s.ptr <= |text| && WF(cfg, s, path) && s.flags.inString
    ensures StepsWell(cfg, s, path, StringStep(true, text, s))
  {
    hide EscapeStep, CloseString, Chain;
    var b := At(text, s.ptr);
    if b == '\0' || s.strLen > UINT_MAX {
    } else if s.flags.escaped {
      EscapeFrame(text, s);
    } else if b == '"' {
      CloseWF(cfg, s, path);
    } else {
    }
  }

  lemma LiteralWF(cfg: Config, text: string, s: State, path: seq<int>, word: string, kind: Kind, truth: bool)
    requires s.alloc == |s.nodes| && OnPath(s, path) && (path != [] ==> IsContainer(s.nodes[s.top].kind))
    requires s.flags == Flags(false, false, false, false, false, false, false, false) && !IsContainer(kind)
    ensures StepsWell(cfg, s, path, Literal(true, cfg, text, s, word, kind, truth))
  {
    hide Finish, NewValue, Chain;
    NewValueWF(cfg, s, path, kind);
    var r := NewValue(true, cfg, s, kind);
    var n := r.s.nodes[r.s.top];
    var s1 := SetTop(r.s, n.(boolean := truth || n.boolean)).(ptr := s.ptr + |word|);
    assert OnPath(s1, path + [r.s.top]) by {
      ChainSame(r.s.nodes, s1.nodes, path + [r.s.top]);
    }
    FinishWF(cfg, s1, path + [r.s.top]);
    assert (path + [r.s.top])[..|path|] == path;
  }

  lemma NumberStartWF(cfg: Config, text: string, s: State, path: seq<int>)
    requires s.ptr <= |text|
    requires s.alloc == |s.nodes| && OnPath(s, path) && (path != [] ==> IsContainer(s.nodes[s.top].kind))
    requires s.flags == Flags(false, false, false, false, false, false, false, false)
    ensures StepsWell(cfg, s, path, NumberStart(true, cfg, text, s))
  {
    hide Finish, NewValue, SkipNumber;
    NewValueWF(cfg, s, path, KInteger);
  }

  lemma SeekWF(cfg: Config, text: string, s: State, path: seq<int>)
    requires s.ptr <= |text| && WF(cfg, s, path) && s.flags.seekValue && !s.flags.inString && !s.flags.done
    requires !s.flags.lineComment && !s.flags.blockComment
    ensures StepsWell(cfg, s, path, SeekStep(true, cfg, text, s))
  {
    hide Finish, NewValue, Literal, NumberStart, Chain;
    var b := At(text, s.ptr);
    var s' := s.(flags := s.flags.(seekValue := false));
    if IsSpace(b) {
    } else if b == ']' {
      if ValidTop(s) && s.nodes[s.top].kind.KArray? {
        FinishWF(cfg, s.(ptr := s.ptr + 1, flags := s.flags.(needComma := false, seekValue := false)), path);
      }
    } else if s.flags.needComma || s.flags.needColon {
    } else if IsDigit(b) || b == '-' {
      NumberStartWF(cfg, text, s', path);
    } else if b == 't' {
      LiteralWF(cfg, text, s', path, "true", KBoolean, true);
    } else if b == 'f' {
      LiteralWF(cfg, text, s', path, "false", KBoolean, false);
    } else if b == 'n' {
      LiteralWF(cfg, text, s', path, "null", KNull, false);
    } else if b == '{' {
      NewValueWF(cfg, s'.(ptr := s.ptr + 1), path, KObject);
    } else if b == '[' {
      NewValueWF(cfg, s'.(ptr := s.ptr + 1, flags := s'.flags.(seekValue := true)), path, KArray);
    } else if b == '"' {
      NewValueWF(cfg, s'.(strLen := 0, ptr := s.ptr + 1, flags := s'.flags.(inString := true)), path, KString);
    }
  }

  lemma ObjectWF(cfg: Config, text: string, s: State, path: seq<int>)
    requires WF(cfg, s, path) && ValidTop(s) && s.nodes[s.top].kind.KObject?
    requires !s.flags.seekValue && !s.flags.inString && !s.flags.done && !s.flags.lineComment && !s.flags.blockComment
    ensures StepsWell(cfg, s, path, ObjectStep(true, text, s))
  {
    hide Finish, Chain;
    if At(text, s.ptr) == '}' {
      FinishWF(cfg, s.(ptr := s.ptr + 1, flags := s.flags.(needComma := false)), path);
    }
  }

  lemma NumberEndWF(cfg: Config, s: State, path: seq<int>)
    requires WF(cfg, s, path) && InNumber(s)
    ensures var r := NumberEnd(true, s); StepsWell(cfg, s, path, r) && (r.Continue? ==> r.s.flags.needComma)
  {
    hide Finish, Chain, Wrap64;
    SetTopWF(cfg, s, Signed(s), path);
    FinishWF(cfg, Signed(s), path);
  }

  lemma NumberWF(cfg: Config, text: string, s: State, path: seq<int>)
    requires WF(cfg, s, path) && InNumber(s)
    ensures StepsWell(cfg, s, path, NumberStep(true, text, s))
  {
    hide NumberEnd, Chain, Wrap64;
    NumberEndWF(cfg, s, path);
    var r := NumberStep(true, text, s);
    if r.Continue? && !r.s.flags.needComma {
      SetTopWF(cfg, s, r.s, path);
    }
  }

  lemma StepWF(cfg: Config, text: string, s: State, path: seq<int>)
    requires s.ptr <= |text| && WF(cfg, s, path)
    ensures StepsWell(cfg, s, path, Step(true, cfg, text, s))
  {
    hide StringStep, SeekStep, ObjectStep, NumberStep, Chain;
    if s.flags.inString {
      StringWF(cfg, text, s, path);
    } else if cfg.comments && (s.flags.lineComment || s.flags.blockComment || At(text, s.ptr) == '/') {
    } else if s.flags.done {
    } else if s.flags.seekValue {
      SeekWF(cfg, text, s, path);
    } else if s.nodes[s.top].kind.KObject? {
      ObjectWF(cfg, text, s, path);
    } else {
      NumberWF(cfg, text, s, path);
    }
  }

  /** The first pass never follows a null pointer, on any text. */
  lemma {:induction false} FirstPassSafe(cfg: Config, text: string, s: State, path: seq<int>)
    requires s.ptr <= |text| && WF(cfg, s, path)
    ensures !Run(true, cfg, text, s).Fault?
    decreases Measure(cfg, text, s)
  {
    StepWF(cfg, text, s, path);
    StepProgress(true, cfg, text, s);
    var r := Step(true, cfg, text, s);
    hide Step, WF;
    if r.Continue? {
      FirstPassSafe(cfg, text, r.s, Next(s, r.s, path));
    }
  }

  // ----- what an accepting first pass still has to come -----

  ghost predicate Grows(n: Node, f: Node) {
    && n.parent == f.parent && n.length <= f.length && n.names <= f.names
    && n.slots == f.slots && n.mem == f.mem && n.memAt == f.memAt
    && (n.kind == f.kind || (n.kind.KInteger? && f.kind.KDouble?)) && (n.boolean ==> f.boolean)
  }

  /** The counts reached so far, with what the values in progress will still add, are within `final`. */
  ghost predicate Covers(s: State, path: seq<int>, final: seq<Node>) {
    && |s.nodes| <= |final|
    && (forall i :: 0 <= i < |s.nodes| ==> Grows(s.nodes[i], final[i]))
    && (forall k :: 0 <= k < |path| - 1 ==>
          0 <= path[k] < |s.nodes| && s.nodes[path[k]].length < final[path[k]].length)
    && (ValidTop(s) && s.nodes[s.top].kind.KObject? && (s.flags.inString || s.flags.seekValue) ==>
          s.nodes[s.top].length < final[s.top].length)
    && (ValidTop(s) && s.flags.inString && s.nodes[s.top].kind.KString? ==> s.strLen <= final[s.top].length)
    && (ValidTop(s) && s.flags.inString && s.nodes[s.top].kind.KObject? ==>
          s.nodes[s.top].names + s.strLen + 1 <= final[s.top].names)
  }

  lemma FinishBack(cfg: Config, s: State, path: seq<int>, final: seq<Node>)
    requires Ready(s, path) && Finish(true, s).Continue?
    requires var r := Finish(true, s); Covers(r.s, if |path| == 1 then path else path[..|path| - 1], final)
    ensures Covers(s, path, final)
  {
    FinishWF(cfg, s, path);
    var r := Finish(true, s);
    if |path| > 1 {
      var path' := path[..|path| - 1];
      assert path'[|path'| - 1] == path[|path| - 2] == r.s.top;
      forall k | 0 <= k < |path| - 1
        ensures s.nodes[path[k]].length < final[path[k]].length
      {
        if k < |path'| - 1 {
          assert path'[k] == path[k] && path[k] < path[|path| - 2];
        } else {
          assert Grows(r.s.nodes[r.s.top], final[r.s.top]);
        }
      }
      forall i | 0 <= i < |s.nodes|
        ensures Grows(s.nodes[i], final[i])
      {
        assert Grows(r.s.nodes[i], final[i]);
      }
    }
  }

  lemma SetTopBack(s: State, s': State, path: seq<int>, final: seq<Node>)
    requires OnPath(s, path) && ValidTop(s) && s'.top == s.top && |s'.nodes| == |s.nodes|
    requires s'.nodes == s.nodes[s.top := s'.nodes[s.top]] && Grows(s.nodes[s.top], s'.nodes[s.top])
    requires Covers(s', path, final)
    requires s.nodes[s.top].kind.KObject? && (s.flags.inString || s.flags.seekValue) ==>
               s.nodes[s.top].length < final[s.top].length
    requires s.flags.inString ==>
               if s.nodes[s.top].kind.KObject? then s.nodes[s.top].names + s.strLen + 1 <= final[s.top].names
               else s.strLen <= final[s.top].length
    ensures Covers(s, path, final)
  {
    forall i | 0 <= i < |s.nodes|
      ensures Grows(s.nodes[i], final[i])
    {
      assert Grows(s'.nodes[i], final[i]);
    }
    forall k | 0 <= k < |path| - 1
      ensures s.nodes[path[k]].length < final[path[k]].length
    {
      assert path[k] < path[|path| - 1];
    }
  }

  lemma NewValueBack(s: State, s': State, path: seq<int>, kind: Kind, final: seq<Node>)
    requires OnPath(s, path) && !s.flags.inString
    requires s'.nodes == s.nodes + [FreshNode(kind, s.top)] && s'.top == |s.nodes|
    requires Covers(s', path + [s'.top], final)
    ensures Covers(s, path, final)
  {
    var path' := path + [s'.top];
    forall i | 0 <= i < |s.nodes|
      ensures Grows(s.nodes[i], final[i])
    {
      assert Grows(s'.nodes[i], final[i]);
    }
    forall k | 0 <= k < |path|
      ensures s.nodes[path[k]].length < final[path[k]].length
    {
      assert path'[k] == path[k] && s'.nodes[path'[k]].length < final[path'[k]].length;
    }
  }

  lemma StringBack(cfg: Config, text: string, s: State, path: seq<int>, final: seq<Node>)
    requires s.ptr <= |text| && WF(cfg, s, path) && s.flags.inString
    requires var r := StringStep(true, text, s); r.Continue? && Covers(r.s, Next(s, r.s, path), final)
    ensures Covers(s, path, final)
  {
    hide EscapeStep, Finish, Chain;
    var b := At(text, s.ptr);
    var r := StringStep(true, text, s);
    var n := s.nodes[s.top];
    if s.flags.escaped {
      EscapeFrame(text, s);
    } else if b == '"' && n.kind.KString? {
      var s1 := SetTop(s.(ptr := s.ptr + 1, flags := s.flags.(inString := false)), n.(length := s.strLen));
      SetTopWF(cfg, s, s1, path);
      FinishWF(cfg, s1, path);
      FinishBack(cfg, s1, path, final);
      assert Grows(s1.nodes[s.top], final[s.top]);
      SetTopBack(s.(strLen := 0), s1, path, final);
    } else if b == '"' {
      assert Grows(r.s.nodes[s.top], final[s.top]);
      SetTopBack(s, r.s, path, final);
    }
  }

  lemma LiteralBack(cfg: Config, text: string, s: State, path: seq<int>, word: string, kind: Kind, truth: bool, final: seq<Node>)
    requires s.alloc == |s.nodes| && OnPath(s, path) && (path != [] ==> IsContainer(s.nodes[s.top].kind))
    requires s.flags == Flags(false, false, false, false, false, false, false, false) && !IsContainer(kind)
    requires var r := Literal(true, cfg, text, s, word, kind, truth); r.Continue? && Covers(r.s, Next(s, r.s, path), final)
    ensures Covers(s, path, final)
    ensures path != [] ==> s.nodes[s.top].length < final[s.top].length
  {
    hide Finish, NewValue, Chain, Covers;
    NewValueWF(cfg, s, path, kind);
    var r := NewValue(true, cfg, s, kind);
    var path' := path + [r.s.top];
    var n := r.s.nodes[r.s.top];
    var s1 := SetTop(r.s, n.(boolean := truth || n.boolean)).(ptr := s.ptr + |word|);
    assert OnPath(s1, path') by {
      ChainSame(r.s.nodes, s1.nodes, path');
    }
    FinishWF(cfg, s1, path');
    assert path'[..|path|] == path;
    FinishBack(cfg, s1, path', final);
    SetTopBack(r.s, s1, path', final);
    NewValueBack(s, r.s, path, kind, final);
    ParentGrows(r.s, path', final);
  }

  lemma ParentGrows(s: State, path: seq<int>, final: seq<Node>)
    requires Covers(s, path, final)
    ensures |path| > 1 ==> var p := path[|path| - 2];
              0 <= p < |s.nodes| && s.nodes[p].length < final[p].length
  {
  }

  lemma SeekBack(cfg: Config, text: string, s: State, path: seq<int>, final: seq<Node>)
    requires s.ptr <= |text| && WF(cfg, s, path) && s.flags.seekValue && !s.flags.inString && !s.flags.done
    requires !s.flags.lineComment && !s.flags.blockComment
    requires var r := SeekStep(true, cfg, text, s); r.Continue? && Covers(r.s, Next(s, r.s, path), final)
    ensures Covers(s, path, final)
  {
    hide Finish, NewValue, Literal, Chain, Grows;
    var b := At(text, s.ptr);
    var s' := s.(flags := s.flags.(seekValue := false));
    var r := SeekStep(true, cfg, text, s);
    if IsSpace(b) {
    } else if b == ']' {
      var s1 := s.(ptr := s.ptr + 1, flags := s.flags.(needComma := false, seekValue := false));
      FinishWF(cfg, s1, path);
      FinishBack(cfg, s1, path, final);
    } else if s.flags.needComma || s.flags.needColon {
    } else if b == 't' {
      LiteralBack(cfg, text, s', path, "true", KBoolean, true, final);
    } else if b == 'f' {
      LiteralBack(cfg, text, s', path, "false", KBoolean, false, final);
    } else if b == 'n' {
      LiteralBack(cfg, text, s', path, "null", KNull, false, final);
    } else {
      var kind := r.s.nodes[r.s.top].kind;
      NewValueWF(cfg, s, path, kind);
      OpenBack(cfg, text, s, path, final);
    }
  }

  lemma OpenBack(cfg: Config, text: string, s: State, path: seq<int>, final: seq<Node>)
    requires s.ptr <= |text| && WF(cfg, s, path) && s.flags.seekValue && !s.flags.inString && !s.flags.done
    requires !s.flags.lineComment && !s.flags.blockComment && !s.flags.needComma && !s.flags.needColon
    requires var b := At(text, s.ptr); !IsSpace(b) && b != ']' && b != 't' && b != 'f' && b != 'n'
    requires var r := SeekStep(true, cfg, text, s); r.Continue? && Covers(r.s, Next(s, r.s, path), final)
    ensures Covers(s, path, final)
  {
    hide Finish, Literal, Covers, Grows;
    var r := SeekStep(true, cfg, text, s);
    NewValueBack(s, r.s, path, r.s.nodes[r.s.top].kind, final);
  }

  lemma ObjectBack(cfg: Config, text: string, s: State, path: seq<int>, final: seq<Node>)
    requires WF(cfg, s, path) && ValidTop(s) && s.nodes[s.top].kind.KObject?
    requires !s.flags.seekValue && !s.flags.inString && !s.flags.done && !s.flags.lineComment && !s.flags.blockComment
    requires var r := ObjectStep(true, text, s); r.Continue? && Covers(r.s, Next(s, r.s, path), final)
    ensures Covers(s, path, final)
  {
    hide Finish, Chain, Grows;
    if At(text, s.ptr) == '}' {
      var s1 := s.(ptr := s.ptr + 1, flags := s.flags.(needComma := false));
      FinishWF(cfg, s1, path);
      FinishBack(cfg, s1, path, final);
    }
  }

  lemma NumberBack(cfg: Config, text: string, s: State, path: seq<int>, final: seq<Node>)
    requires WF(cfg, s, path) && InNumber(s)
    requires var r := NumberStep(true, text, s); r.Continue? && Covers(r.s, Next(s, r.s, path), final)
    ensures Covers(s, path, final)
  {
    hide Finish, Chain, Covers, Wrap64;
    var r := NumberStep(true, text, s);
    if !r.s.flags.needComma {
      SetTopBack(s, r.s, path, final);
    } else {
      SetTopWF(cfg, s, Signed(s), path);
      FinishWF(cfg, Signed(s), path);
      FinishBack(cfg, Signed(s), path, final);
      SetTopBack(s, Signed(s), path, final);
    }
  }

  lemma StepBack(cfg: Config, text: string, s: State, path: seq<int>, final: seq<Node>)
    requires s.ptr <= |text| && WF(cfg, s, path)
    requires var r := Step(true, cfg, text, s); r.Continue? && Covers(r.s, Next(s, r.s, path), final)
    ensures Covers(s, path, final)
  {
    hide StringStep, SeekStep, ObjectStep, NumberStep, Chain, Grows;
    if s.flags.inString {
      StringBack(cfg, text, s, path, final);
    } else if cfg.comments && (s.flags.lineComment || s.flags.blockComment || At(text, s.ptr) == '/') {
    } else if s.flags.done {
    } else if s.flags.seekValue {
      SeekBack(cfg, text, s, path, final);
    } else if s.nodes[s.top].kind.KObject? {
      ObjectBack(cfg, text, s, path, final);
    } else {
      NumberBack(cfg, text, s, path, final);
    }
  }

  /** If the first pass will accept, its final counts cover every state on the way. */
  lemma {:induction false} Foreseen(cfg: Config, text: string, s: State, path: seq<int>, final: seq<Node>)
    requires s.ptr <= |text| && WF(cfg, s, path)
    requires Run(true, cfg, text, s) == Accept(final)
    ensures Covers(s, path, final)
    decreases Measure(cfg, text, s)
  {
    StepWF(cfg, text, s, path);
    StepProgress(true, cfg, text, s);
    var r := Step(true, cfg, text, s);
    if r.Continue? {
      hide Step, WF, Covers;
      Foreseen(cfg, text, r.s, Next(s, r.s, path), final);
      StepBack(cfg, text, s, path, final);
    } else {
      AcceptCovers(cfg, text, s, path, final);
    }
  }

  lemma AcceptCovers(cfg: Config, text: string, s: State, path: seq<int>, final: seq<Node>)
    requires s.ptr <= |text| && WF(cfg, s, path)
    requires Step(true, cfg, text, s) == Accept(final)
    ensures s.flags.done && final == s.nodes && |path| == 1
    ensures Covers(s, path, final)
  {
    hide StringStep, SeekStep, ObjectStep, NumberStep;
  }
}
