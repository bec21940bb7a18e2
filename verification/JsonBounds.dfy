/**
 In src/json.c an object takes at least five characters of the text for each member, and one for
 each byte of its names, whatever the text is.
 */
module JsonBounds {
  import opened JsonParser
  import opened JsonPasses
  import JsonSecondPass

  // ----- what has been read for the members counted -----

  /** A number of which nothing has been read. */
  predicate Unread(s: State) {
    InNumber(s) && s.nodes[s.top].kind.KInteger? && s.num.digits == 0 && !s.num.negative
  }

  /** The characters read beyond five for each member of the object at `top`. */
  function Extra(f: Flags): nat {
    if f.inString then 2
    else if f.done then 1
    else if f.seekValue then (if f.needColon then 3 else 4)
    else if f.needComma then 0 else 1
  }

  /** The same beyond four for each member and one for each byte of the names. */
  function ExtraNamed(f: Flags, strLen: nat): nat {
    if f.inString then 2 + strLen
    else if !f.done && f.seekValue then (if f.needColon then 2 else 3)
    else Extra(f)
  }

  ghost predicate Paid(text: string, s: State, path: seq<int>) {
    && (forall i :: 0 <= i < |s.nodes| && i != s.top ==> Bounded(s.nodes[i], s.ptr))
    && (ValidTop(s) && s.nodes[s.top].kind.KObject? ==> PaidTop(s, s.nodes[s.top]))
    && (forall k :: 0 <= k < |path| - 1 ==> 0 <= path[k] < |s.nodes| && Open(s.nodes[path[k]], if k == |path| - 2 && Unread(s) then 4 else 5, s.ptr))
    && (Unread(s) ==> IsDigit(At(text, s.ptr)))
    && (forall i :: 0 <= i < |s.nodes| && i !in path ==> Nameless(s.nodes[i]))
  }

  /** Without a member it has no name either, unless its first member is being read. */
  predicate PaidTop(s: State, n: Node) {
    && 5 * n.length + Extra(s.flags) <= s.ptr && n.names + 4 * n.length + ExtraNamed(s.flags, s.strLen) <= s.ptr
    && (n.length == 0 && !s.flags.seekValue ==> n.names == 0)
  }

  predicate Bounded(n: Node, ptr: nat) {
    n.kind.KObject? && n.length > 0 ==> 5 * n.length + 1 <= ptr && n.names + 4 * n.length + 1 <= ptr
  }

  /** No member, no name. */
  predicate Nameless(n: Node) { n.kind.KObject? && n.length == 0 ==> n.names == 0 }

  predicate Open(n: Node, extra: nat, ptr: nat) {
    n.kind.KObject? ==> 5 * n.length + extra <= ptr && n.names + 4 * n.length + extra <= ptr + 1
  }

  /** All but the value at the end of the path, which something has been read of. */
  ghost predicate PaidBelow(s: State, path: seq<int>) {
    && (forall i :: 0 <= i < |s.nodes| && i != s.top ==> Bounded(s.nodes[i], s.ptr))
    && (forall k :: 0 <= k < |path| - 1 ==> 0 <= path[k] < |s.nodes| && Open(s.nodes[path[k]], 5, s.ptr))
    && (forall i :: 0 <= i < |s.nodes| && i !in path ==> Nameless(s.nodes[i]))
  }

  lemma FinishPays(text: string, s: State, path: seq<int>)
    requires Ready(s, path) && PaidBelow(s, path) && Bounded(s.nodes[s.top], s.ptr)
    requires Nameless(s.nodes[s.top]) && (s.nodes[s.top].kind.KObject? ==> 1 <= s.ptr)
    ensures var r := Finish(true, s);
            r.Continue? ==> Paid(text, r.s, if |path| == 1 then path else path[..|path| - 1])
  {
    hide Chain;
    JsonSecondPass.FinishParent(s, path);
    PathApart(s.nodes, path);
    assert path[|path| - 1] == s.top;
    if |path| > 1 {
      assert Open(s.nodes[path[|path| - 2]], 5, s.ptr);
    }
  }

  lemma PathRises(nodes: seq<Node>, path: seq<int>)
    requires Chain(nodes, path)
    ensures forall k :: 0 <= k < |path| - 1 ==> path[k] < path[|path| - 1]
  {
  }

  lemma PathApart(nodes: seq<Node>, path: seq<int>)
    requires Chain(nodes, path)
    ensures forall k :: 0 <= k < |path| - 2 ==> path[k] < path[|path| - 2] < path[|path| - 1]
  {
  }

  /** What a step needs more for the object at the top, it has read. */
  predicate Covered(s: State, t: State, n: Node, m: Node) {
    && Extra(t.flags) + s.ptr <= Extra(s.flags) + t.ptr
    && m.names + ExtraNamed(t.flags, t.strLen) + s.ptr <= n.names + ExtraNamed(s.flags, s.strLen) + t.ptr
    && (t.flags.seekValue || (m.names == n.names && !s.flags.seekValue))
  }

  /** A step that counts no member more. */
  lemma SamePays(text: string, s: State, t: State, path: seq<int>)
    requires Paid(text, s, path) && OnPath(s, path) && t.top == s.top && |t.nodes| == |s.nodes| && s.ptr <= t.ptr
    requires forall i :: 0 <= i < |s.nodes| ==>
               (t.nodes[i].kind.KObject? <==> s.nodes[i].kind.KObject?) && (s.nodes[i].kind.KObject? ==> t.nodes[i].length == s.nodes[i].length)
    requires forall i :: 0 <= i < |s.nodes| && i != s.top && s.nodes[i].kind.KObject? ==> t.nodes[i].names == s.nodes[i].names
    requires ValidTop(s) && s.nodes[s.top].kind.KObject? ==> Covered(s, t, s.nodes[s.top], t.nodes[s.top])
    requires Unread(t) ==> Unread(s) && t.ptr == s.ptr
    requires Unread(s) ==> Unread(t) || s.ptr < t.ptr
    ensures Paid(text, t, path)
  {
    hide Unread, Chain;
    PathRises(s.nodes, path);
    forall k | 0 <= k < |path| - 1
      ensures 0 <= path[k] < |t.nodes| && Open(t.nodes[path[k]], if k == |path| - 2 && Unread(t) then 4 else 5, t.ptr)
    {
      assert Open(s.nodes[path[k]], if k == |path| - 2 && Unread(s) then 4 else 5, s.ptr);
    }
    forall i | 0 <= i < |t.nodes| && i != t.top
      ensures Bounded(t.nodes[i], t.ptr)
    {
      assert Bounded(s.nodes[i], s.ptr);
    }
  }

  /** A new node, of which something has been read unless it is an unread number. */
  lemma NewPays(text: string, cfg: Config, s: State, path: seq<int>, t: State, kind: Kind, ptr: nat)
    requires s.alloc == |s.nodes| && OnPath(s, path) && Paid(text, s, path)
    requires ValidTop(s) && s.nodes[s.top].kind.KObject? ==> Extra(s.flags) == 4
    requires t.nodes == s.nodes + [FreshNode(kind, s.top)] && t.top == |s.nodes|
    requires if Unread(t) then s.ptr == t.ptr && IsDigit(At(text, t.ptr)) else s.ptr < t.ptr
    requires kind.KObject? ==> Extra(t.flags) <= t.ptr && ExtraNamed(t.flags, t.strLen) <= t.ptr && !t.flags.seekValue
    requires !Unread(s) && (path != [] ==> ValidTop(s))
    ensures Paid(text, t, path + [t.top])
  {
    hide Chain, Unread;
    var path' := path + [t.top];
    forall k | 0 <= k < |path'| - 1
      ensures 0 <= path'[k] < |t.nodes| && Open(t.nodes[path'[k]], if k == |path'| - 2 && Unread(t) then 4 else 5, t.ptr)
    {
      if k < |path| - 1 {
        assert Open(s.nodes[path[k]], 5, s.ptr);
      } else {
        assert path[k] == s.top;
      }
    }
  }

  // ----- one step -----

  ghost predicate StepPays(text: string, s: State, path: seq<int>, r: Outcome) {
    r.Continue? ==> Paid(text, r.s, Next(s, r.s, path))
  }

  lemma LiteralPays(cfg: Config, text: string, s: State, path: seq<int>, word: string, kind: Kind, truth: bool)
    requires s.alloc == |s.nodes| && OnPath(s, path) && (path != [] ==> IsContainer(s.nodes[s.top].kind)) && Paid(text, s.(flags := s.flags.(seekValue := true)), path)
    requires s.flags == Flags(false, false, false, false, false, false, false, false) && (kind == KBoolean || kind == KNull) && word != ""
    ensures StepPays(text, s, path, Literal(true, cfg, text, s, word, kind, truth))
  {
    hide Finish, NewValue, Chain, Word, Paid;
    NewValueWF(cfg, s, path, kind);
    var r := NewValue(true, cfg, s, kind);
    var path' := path + [r.s.top];
    var n := r.s.nodes[r.s.top];
    var t := SetTop(r.s, n.(boolean := truth || n.boolean)).(ptr := s.ptr + |word|);
    ChainSame(r.s.nodes, t.nodes, path');
    var u := r.s.(ptr := s.ptr + |word|);
    TopValid(s, path);
    NewPays(text, cfg, s.(flags := s.flags.(seekValue := true)), path, u, kind, u.ptr);
    SamePays(text, u, t, path');
    BelowTop(text, t, path');
    FinishPays(text, t, path');
    FinishWF(cfg, t, path');
    assert path'[..|path|] == path;
  }

  lemma TopValid(s: State, path: seq<int>)
    requires OnPath(s, path)
    ensures path != [] ==> ValidTop(s)
  {
  }

  /** With a leaf at the end of the path that has been read. */
  lemma BelowTop(text: string, s: State, path: seq<int>)
    requires Paid(text, s, path) && !Unread(s)
    ensures PaidBelow(s, path)
  {
  }

  lemma NumberStartPays(cfg: Config, text: string, s: State, path: seq<int>)
    requires s.ptr <= |text| && s.alloc == |s.nodes| && OnPath(s, path) && Paid(text, s.(flags := s.flags.(seekValue := true)), path)
    requires s.flags == Flags(false, false, false, false, false, false, false, false)
    requires IsDigit(At(text, s.ptr)) || At(text, s.ptr) == '-'
    ensures StepPays(text, s, path, NumberStart(true, cfg, text, s))
  {
    hide Finish, Chain, Paid, SkipNumber;
    TopValid(s, path);
    var t := NumberStart(true, cfg, text, s).s;
    NewPays(text, cfg, s.(flags := s.flags.(seekValue := true)), path, t, KInteger, t.ptr);
  }

  lemma SeekPays(cfg: Config, text: string, s: State, path: seq<int>)
    requires s.ptr <= |text| && WF(cfg, s, path) && s.flags.seekValue && !s.flags.inString && !s.flags.done
    requires !s.flags.lineComment && !s.flags.blockComment && Paid(text, s, path)
    ensures StepPays(text, s, path, SeekStep(true, cfg, text, s))
  {
    hide Finish, NewValue, Literal, NumberStart, Chain, Paid;
    var b := At(text, s.ptr);
    var s' := s.(flags := s.flags.(seekValue := false));
    TopValid(s, path);
    if IsSpace(b) {
      SamePays(text, s, s.(ptr := s.ptr + 1), path);
    } else if b == ']' {
      if ValidTop(s) && s.nodes[s.top].kind.KArray? {
        var t := s.(ptr := s.ptr + 1, flags := s.flags.(needComma := false, seekValue := false));
        SamePays(text, s, t, path);
        BelowTop(text, t, path);
        FinishPays(text, t, path);
        FinishWF(cfg, t, path);
      }
    } else if s.flags.needComma {
      SamePays(text, s, s.(ptr := s.ptr + 1, flags := s.flags.(needComma := false)), path);
    } else if s.flags.needColon {
      SamePays(text, s, s.(ptr := s.ptr + 1, flags := s.flags.(needColon := false)), path);
    } else if IsDigit(b) || b == '-' {
      NumberStartPays(cfg, text, s', path);
    } else if b == 't' {
      LiteralPays(cfg, text, s', path, "true", KBoolean, true);
    } else if b == 'f' {
      LiteralPays(cfg, text, s', path, "false", KBoolean, false);
    } else if b == 'n' {
      LiteralPays(cfg, text, s', path, "null", KNull, false);
    } else if b == '{' || b == '[' || b == '"' {
      OpenPays(cfg, text, s, path);
    }
  }

  lemma OpenPays(cfg: Config, text: string, s: State, path: seq<int>)
    requires s.ptr <= |text| && WF(cfg, s, path) && s.flags.seekValue && !s.flags.inString && !s.flags.done
    requires !s.flags.lineComment && !s.flags.blockComment && !s.flags.needComma && !s.flags.needColon && Paid(text, s, path)
    requires var b := At(text, s.ptr); b == '{' || b == '[' || b == '"'
    ensures StepPays(text, s, path, SeekStep(true, cfg, text, s))
  {
    hide Finish, Literal, NumberStart, Chain, Paid;
    TopValid(s, path);
    var t := SeekStep(true, cfg, text, s).s;
    NewPays(text, cfg, s, path, t, t.nodes[t.top].kind, t.ptr);
  }

  lemma ObjectPays(cfg: Config, text: string, s: State, path: seq<int>)
    requires WF(cfg, s, path) && ValidTop(s) && s.nodes[s.top].kind.KObject? && Paid(text, s, path)
    requires !s.flags.seekValue && !s.flags.inString && !s.flags.done && !s.flags.lineComment && !s.flags.blockComment
    ensures StepPays(text, s, path, ObjectStep(true, text, s))
  {
    hide Finish, Chain, Paid;
    var r := ObjectStep(true, text, s);
    if At(text, s.ptr) == '}' {
      var t := s.(ptr := s.ptr + 1, flags := s.flags.(needComma := false));
      SamePays(text, s, t, path);
      BelowTop(text, t, path);
      TopClosed(text, t, path);
      FinishPays(text, t, path);
      FinishWF(cfg, t, path);
    } else if r.Continue? {
      SamePays(text, s, r.s, path);
    }
  }

  /** The object at the top has all its members, and the closing brace has been read. */
  lemma TopClosed(text: string, s: State, path: seq<int>)
    requires Paid(text, s, path) && ValidTop(s) && s.nodes[s.top].kind.KObject?
    requires s.flags == Flags(false, false, false, false, false, false, false, false)
    ensures Bounded(s.nodes[s.top], s.ptr) && Nameless(s.nodes[s.top]) && 1 <= s.ptr
  {
  }

  lemma NumberPays(cfg: Config, text: string, s: State, path: seq<int>)
    requires WF(cfg, s, path) && InNumber(s) && Paid(text, s, path)
    ensures StepPays(text, s, path, NumberStep(true, text, s))
  {
    hide Finish, Chain, Paid, Signed, Wrap64;
    UnreadDigit(text, s, path);
    var b := At(text, s.ptr);
    var r := NumberStep(true, text, s);
    if r.Continue? && r != NumberEnd(true, s) {
      SamePays(text, s, r.s, path);
    } else if r.Continue? {
      EndPays(cfg, text, s, path);
    }
  }

  lemma UnreadDigit(text: string, s: State, path: seq<int>)
    requires Paid(text, s, path)
    ensures Unread(s) ==> IsDigit(At(text, s.ptr))
  {
  }

  lemma EndPays(cfg: Config, text: string, s: State, path: seq<int>)
    requires WF(cfg, s, path) && InNumber(s) && Paid(text, s, path) && !Unread(s)
    ensures StepPays(text, s, path, NumberEnd(true, s))
  {
    hide Finish, Chain, Paid, Wrap64;
    var t := Signed(s);
    SamePays(text, s, t, path);
    BelowTop(text, t, path);
    ChainSame(s.nodes, t.nodes, path);
    FinishPays(text, t, path);
    FinishWF(cfg, t, path);
  }

  /** What is written takes no more bytes than characters. */
  lemma EscapePays(text: string, s: State)
    requires s.ptr < |text|
    ensures var r := EscapeStep(true, text, s); r.Continue? ==> r.s.strLen + s.ptr <= s.strLen + r.s.ptr
  {
    hide Utf8, Unescape, PairCode, CodeAt, HexAt;
  }

  lemma StringPays(cfg: Config, text: string, s: State, path: seq<int>)
    requires s.ptr <= |text| && WF(cfg, s, path) && s.flags.inString && Paid(text, s, path)
    ensures StepPays(text, s, path, StringStep(true, text, s))
  {
    hide Finish, Chain, Paid, EscapeStep, CloseString;
    var r := StringStep(true, text, s);
    if At(text, s.ptr) == '\0' {
    } else if s.flags.escaped {
      EscapeFrame(text, s);
      EscapeProgress(true, text, s);
      EscapePays(text, s);
      if r.Continue? { SamePays(text, s, r.s, path); }
    } else if At(text, s.ptr) == '"' {
      ClosePays(cfg, text, s, path);
    } else if r.Continue? {
      SamePays(text, s, r.s, path);
    }
  }

  /** A string whose closing quote has been read, with its length. */
  function Counted(s: State): State
    requires ValidTop(s)
  {
    SetTop(s, s.nodes[s.top].(length := s.strLen)).(ptr := s.ptr + 1, flags := s.flags.(inString := false))
  }

  lemma CountedPays(text: string, s: State, path: seq<int>)
    requires OnPath(s, path) && path != [] && s.nodes[s.top].kind.KString? && s.flags.inString && !s.flags.escaped
    requires Paid(text, s, path)
    ensures PaidBelow(Counted(s), path) && Chain(Counted(s).nodes, path)
  {
    hide Paid, PaidBelow, Chain;
    TopValid(s, path);
    SamePays(text, s, Counted(s), path);
    BelowTop(text, Counted(s), path);
    ChainSame(s.nodes, Counted(s).nodes, path);
  }

  lemma ClosePays(cfg: Config, text: string, s: State, path: seq<int>)
    requires WF(cfg, s, path) && s.flags.inString && !s.flags.escaped && Paid(text, s, path)
    ensures StepPays(text, s, path, CloseString(true, s))
  {
    hide Finish, Chain, Paid, PaidBelow;
    if s.nodes[s.top].kind.KObject? {
      SamePays(text, s, CloseString(true, s).s, path);
    } else {
      TextPays(cfg, text, s, path);
    }
  }

  lemma TextPays(cfg: Config, text: string, s: State, path: seq<int>)
    requires WF(cfg, s, path) && s.flags.inString && !s.flags.escaped && Paid(text, s, path) && s.nodes[s.top].kind.KString?
    ensures StepPays(text, s, path, CloseString(true, s))
  {
    hide Finish, Chain, Paid, PaidBelow;
    CountedPays(text, s, path);
    FinishPays(text, Counted(s), path);
    FinishWF(cfg, Counted(s), path);
  }

  /** Every step of the first pass has been paid for in characters. */
  lemma AnyPays(cfg: Config, text: string, s: State, path: seq<int>)
    requires s.ptr <= |text| && WF(cfg, s, path) && Paid(text, s, path)
    ensures StepPays(text, s, path, Step(true, cfg, text, s))
  {
    hide StringStep, SeekStep, ObjectStep, NumberStep, Chain, Paid;
    var r := Step(true, cfg, text, s);
    if s.flags.inString {
      StringPays(cfg, text, s, path);
    } else if cfg.comments && (s.flags.lineComment || s.flags.blockComment || At(text, s.ptr) == '/') {
      UnreadDigit(text, s, path);
      if r.Continue? { SamePays(text, s, r.s, path); }
    } else if s.flags.done {
      if r.Continue? { SamePays(text, s, r.s, path); }
    } else if s.flags.seekValue {
      SeekPays(cfg, text, s, path);
    } else if s.nodes[s.top].kind.KObject? {
      ObjectPays(cfg, text, s, path);
    } else {
      NumberPays(cfg, text, s, path);
    }
  }

  // ----- the whole pass -----

  /**
   Whatever the text, an object of k members, if there are any, has taken 5k + 1 characters, and
   4k + 1 and one for each byte of its names; one without a member has no name.
   */
  lemma {:induction false} RunPays(cfg: Config, text: string, s: State, path: seq<int>)
    requires s.ptr <= |text| && WF(cfg, s, path) && Paid(text, s, path)
    ensures var r := Run(true, cfg, text, s);
            r.Accept? ==> forall i :: 0 <= i < |r.nodes| ==> Bounded(r.nodes[i], |text|) && Nameless(r.nodes[i])
    decreases Measure(cfg, text, s)
  {
    hide Step, WF, Paid, Measure, Run, Nameless;
    RunStep(true, cfg, text, s);
    StepWF(cfg, text, s, path);
    AnyPays(cfg, text, s, path);
    StepProgress(true, cfg, text, s);
    var r := Step(true, cfg, text, s);
    if r.Continue? {
      RunPays(cfg, text, r.s, Next(s, r.s, path));
    } else if r.Accept? {
      AcceptPaid(cfg, text, s, path, r.nodes);
    }
  }

  lemma AcceptPaid(cfg: Config, text: string, s: State, path: seq<int>, nodes: seq<Node>)
    requires s.ptr <= |text| && WF(cfg, s, path) && Paid(text, s, path) && Step(true, cfg, text, s) == Accept(nodes)
    ensures forall i :: 0 <= i < |nodes| ==> Bounded(nodes[i], |text|) && Nameless(nodes[i])
  {
    hide Step;
    AcceptCovers(cfg, text, s, path, nodes);
    forall i | 0 <= i < |s.nodes|
      ensures Bounded(s.nodes[i], |text|) && Nameless(s.nodes[i])
    {
      assert i != s.top ==> Bounded(s.nodes[i], s.ptr) && i !in path;
    }
  }
}
