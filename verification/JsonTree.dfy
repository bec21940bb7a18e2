/** The nodes that the second pass of src/json.c leaves behind form a tree. */
module JsonTree {
  import opened JsonParser
  import opened JsonPasses
  import opened JsonSecondPass
  import opened JsonFate

  /** The entries of a container that are in use. */
  function Kids(n: Node): (kids: seq<int>)
    ensures IsContainer(n.kind) && n.length <= |n.slots| ==> |kids| == n.length
  {
    if IsContainer(n.kind) && n.length <= |n.slots| then seq(n.length, k requires 0 <= k < n.length => n.slots[k].value)
    else []
  }

  /** Entries lead to later nodes that name the container as their parent, in increasing order. */
  ghost predicate GoodKids(nodes: seq<Node>, i: int, end: int)
    requires 0 <= i < |nodes|
  {
    AreKids(nodes, i, end, Kids(nodes[i]))
  }

  ghost predicate AreKids(nodes: seq<Node>, i: int, end: int, kids: seq<int>)
    requires 0 <= i
  {
    && (forall k :: 0 <= k < |kids| ==> i < kids[k] < end <= |nodes| && nodes[kids[k]].parent == i)
    && (forall j, k :: 0 <= j < k < |kids| ==> kids[j] < kids[k])
  }

  ghost predicate HasKid(nodes: seq<Node>, p: int, c: int) {
    0 <= p < c && p < |nodes| && IsContainer(nodes[p].kind) && c in Kids(nodes[p])
  }

  /** The shape of a finished document: every node but the root is an entry of its parent, once. */
  ghost predicate Shaped(nodes: seq<Node>) {
    && nodes != [] && nodes[0].parent == NONE
    && (forall i :: 0 <= i < |nodes| && IsContainer(nodes[i].kind) ==> |nodes[i].slots| == nodes[i].length)
    && (forall i :: 0 <= i < |nodes| ==> GoodKids(nodes, i, |nodes|))
    && (forall c :: 0 < c < |nodes| ==> HasKid(nodes, nodes[c].parent, c))
  }

  /** No object is oversized, and one without members has null for its block, and not a count of name bytes. */
  predicate Sound(n: Node) { !Oversized(n) && (n.kind.KObject? && n.length == 0 ==> n.names == 0) }

  /** A document that can be walked and freed. */
  ghost predicate IsTree(nodes: seq<Node>) { Shaped(nodes) && forall i :: 0 <= i < |nodes| ==> Sound(nodes[i]) }

  /** The same for a document in progress, whose open values are those on `path`. */
  ghost predicate Linked(nodes: seq<Node>, alloc: nat, path: seq<int>) {
    && alloc <= |nodes|
    && (forall i :: 0 <= i < alloc ==> GoodKids(nodes, i, alloc))
    && (forall c :: 0 < c < alloc && c !in path ==> HasKid(nodes, nodes[c].parent, c))
    && (forall j, k :: 0 <= j < |path| - 1 && k == j + 1 ==> 0 <= path[j] < |nodes| && Below(Kids(nodes[path[j]]), path[k]))
    && (forall k :: 0 <= k < |path| ==> 0 <= path[k] < alloc)
  }

  ghost predicate Below(kids: seq<int>, c: int) {
    forall x :: x in kids ==> x < c
  }

  ghost predicate SameLink(n: Node, n': Node) {
    n'.parent == n.parent && IsContainer(n'.kind) == IsContainer(n.kind) && Kids(n') == Kids(n)
  }

  /** Only parents and entries in use matter. */
  lemma LinkedSame(nodes: seq<Node>, nodes': seq<Node>, alloc: nat, path: seq<int>)
    requires Linked(nodes, alloc, path) && |nodes'| == |nodes|
    requires forall i :: 0 <= i < |nodes| ==> SameLink(nodes[i], nodes'[i])
    ensures Linked(nodes', alloc, path)
  {
    hide Kids;
    forall i | 0 <= i < alloc
      ensures GoodKids(nodes', i, alloc)
    {
      assert GoodKids(nodes, i, alloc);
    }
    forall c | 0 < c < alloc && c !in path
      ensures HasKid(nodes', nodes'[c].parent, c)
    {
      assert HasKid(nodes, nodes[c].parent, c);
    }
  }

  /** A new node, at the end of the path. */
  lemma LinkedNew(nodes: seq<Node>, nodes': seq<Node>, alloc: nat, path: seq<int>)
    requires Linked(nodes, alloc, path) && |nodes'| == |nodes| && alloc < |nodes|
    requires nodes' == nodes[alloc := nodes'[alloc]] && Kids(nodes'[alloc]) == []
    ensures Linked(nodes', alloc + 1, path + [alloc])
  {
    hide Kids;
    var end := alloc + 1;
    forall i | 0 <= i < end
      ensures GoodKids(nodes', i, end)
    {
      if i < alloc {
        assert GoodKids(nodes, i, alloc);
      }
    }
    var path' := path + [alloc];
    forall c | 0 < c < alloc + 1 && c !in path'
      ensures HasKid(nodes', nodes'[c].parent, c)
    {
      assert c != alloc;
      assert HasKid(nodes, nodes[c].parent, c);
    }
    forall j, k | 0 <= j < |path'| - 1 && k == j + 1
      ensures 0 <= path'[j] < |nodes'| && Below(Kids(nodes'[path'[j]]), path'[k])
    {
      assert 0 <= path[j] < alloc && GoodKids(nodes, path[j], alloc);
      if k < |path| {
        assert Below(Kids(nodes[path[j]]), path[k]);
      }
    }
  }

  lemma StillHasKid(nodes: seq<Node>, nodes': seq<Node>, p: int, c0: int, c: int)
    requires 0 <= p < |nodes| == |nodes'| && 0 <= c < |nodes| && (forall i :: 0 <= i < |nodes| && i != p ==> nodes'[i] == nodes[i])
    requires nodes'[p].parent == nodes[p].parent && nodes'[p].kind == nodes[p].kind && IsContainer(nodes[p].kind)
    requires Kids(nodes'[p]) == Kids(nodes[p]) + [c0]
    requires if c == c0 then nodes[c].parent == p < c else HasKid(nodes, nodes[c].parent, c)
    ensures HasKid(nodes', nodes'[c].parent, c)
  {
    hide Kids;
    assert c0 in Kids(nodes[p]) + [c0];
  }

  lemma OneMoreKid(nodes: seq<Node>, nodes': seq<Node>, p: int, c: int, end: int)
    requires 0 <= p < c < end <= |nodes| == |nodes'| && nodes[c].parent == p
    requires GoodKids(nodes, p, end) && Below(Kids(nodes[p]), c) && Kids(nodes'[p]) == Kids(nodes[p]) + [c]
    requires forall i :: 0 <= i < |nodes| ==> nodes'[i].parent == nodes[i].parent
    ensures GoodKids(nodes', p, end)
  {
    hide Kids;
    var kids := Kids(nodes[p]);
    forall j, k | 0 <= j < k < |kids| + 1
      ensures (kids + [c])[j] < (kids + [c])[k]
    {
      assert kids[j] in kids;
    }
  }

  /** The value at the end of the path has become an entry of its parent; nothing else has changed. */
  ghost predicate Closed(nodes: seq<Node>, nodes': seq<Node>, path: seq<int>) {
    && |path| > 1 && |nodes'| == |nodes|
    && var p := path[|path| - 2];
       && 0 <= p < |nodes| && nodes' == nodes[p := nodes'[p]]
       && nodes'[p].parent == nodes[p].parent && nodes'[p].kind == nodes[p].kind
       && Kids(nodes'[p]) == Kids(nodes[p]) + [path[|path| - 1]]
  }

  lemma LinkedClose(nodes: seq<Node>, nodes': seq<Node>, alloc: nat, path: seq<int>)
    requires Linked(nodes, alloc, path) && Chain(nodes, path) && Closed(nodes, nodes', path)
    ensures Linked(nodes', alloc, path[..|path| - 1])
  {
    hide Kids, GoodKids, HasKid, Below, Chain;
    CloseGood(nodes, nodes', alloc, path);
    CloseHas(nodes, nodes', alloc, path);
    CloseBelow(nodes, nodes', alloc, path);
  }

  lemma CloseGood(nodes: seq<Node>, nodes': seq<Node>, alloc: nat, path: seq<int>)
    requires Linked(nodes, alloc, path) && Chain(nodes, path) && Closed(nodes, nodes', path)
    ensures |nodes'| == |nodes| && (forall i :: 0 <= i < alloc ==> GoodKids(nodes', i, alloc))
  {
    hide Kids, GoodKids, HasKid, Below, Chain;
    CloseFacts(nodes, alloc, path);
    var p := path[|path| - 2];
    forall i | 0 <= i < alloc
      ensures GoodKids(nodes', i, alloc)
    {
      if i == p {
        OneMoreKid(nodes, nodes', p, path[|path| - 1], alloc);
      } else {
        SameKids(nodes, nodes', i, alloc);
      }
    }
  }

  lemma CloseHas(nodes: seq<Node>, nodes': seq<Node>, alloc: nat, path: seq<int>)
    requires Linked(nodes, alloc, path) && Chain(nodes, path) && Closed(nodes, nodes', path)
    ensures |nodes'| == |nodes|
    ensures forall c :: 0 < c < alloc && c !in path[..|path| - 1] ==> HasKid(nodes', nodes'[c].parent, c)
  {
    hide Kids, GoodKids, HasKid, Below, Chain;
    CloseFacts(nodes, alloc, path);
    var p, c0 := path[|path| - 2], path[|path| - 1];
    var path' := path[..|path| - 1];
    assert path == path' + [c0];
    forall c | 0 < c < alloc && c !in path'
      ensures HasKid(nodes', nodes'[c].parent, c)
    {
      assert c == c0 || c !in path;
      StillHasKid(nodes, nodes', p, c0, c);
    }
  }

  lemma CloseBelow(nodes: seq<Node>, nodes': seq<Node>, alloc: nat, path: seq<int>)
    requires Linked(nodes, alloc, path) && Chain(nodes, path) && Closed(nodes, nodes', path)
    ensures var path' := path[..|path| - 1];
            forall j, k :: 0 <= j < |path'| - 1 && k == j + 1 ==>
              0 <= path'[j] < |nodes'| && Below(Kids(nodes'[path'[j]]), path'[k])
  {
    hide Kids, GoodKids, HasKid, Below;
    var path', m := path[..|path| - 1], |path| - 2;
    forall j, k | 0 <= j < |path'| - 1 && k == j + 1
      ensures 0 <= path'[j] < |nodes'| && Below(Kids(nodes'[path'[j]]), path'[k])
    {
      assert path[j] < path[m] && path'[j] == path[j] && path'[k] == path[k];
    }
  }

  /** The last two nodes of a path: the container, and the value in it that is complete. */
  lemma CloseFacts(nodes: seq<Node>, alloc: nat, path: seq<int>)
    requires Linked(nodes, alloc, path) && Chain(nodes, path) && |path| > 1
    ensures var p, c0 := path[|path| - 2], path[|path| - 1];
            0 <= p < c0 < alloc <= |nodes| && Below(Kids(nodes[p]), c0) && nodes[c0].parent == p && IsContainer(nodes[p].kind)
  {
    hide Kids, GoodKids, HasKid, Below;
  }

  lemma SameKids(nodes: seq<Node>, nodes': seq<Node>, i: int, end: int)
    requires 0 <= i < |nodes| == |nodes'| && nodes'[i] == nodes[i] && GoodKids(nodes, i, end)
    requires forall k :: 0 <= k < |nodes| ==> nodes'[k].parent == nodes[k].parent
    ensures GoodKids(nodes', i, end)
  {
    hide Kids;
    var kids := Kids(nodes[i]);
    assert Kids(nodes'[i]) == kids;
    forall k | 0 <= k < |kids|
      ensures i < kids[k] < end <= |nodes'| && nodes'[kids[k]].parent == i
    {
      assert nodes[kids[k]].parent == i;
    }
    assert AreKids(nodes', i, end, kids);
  }

  // ----- steps of the second pass -----

  ghost predicate LinkedState(s: State, path: seq<int>) {
    && Linked(s.nodes, s.alloc, path) && Chain(s.nodes, path)
    && (path == [] <==> s.top == NONE) && (path != [] ==> path[|path| - 1] == s.top)
  }

  ghost function Next2(s: State, s': State, path: seq<int>): seq<int> {
    if s'.top == s.top then path
    else if s'.alloc > s.alloc then path + [s'.top]
    else if path == [] then path
    else path[..|path| - 1]
  }

  ghost predicate StaysLinked(s: State, path: seq<int>, r: Outcome) {
    r.Continue? ==> Linked(r.s.nodes, r.s.alloc, Next2(s, r.s, path))
  }

  lemma LinkFinish(s: State, path: seq<int>)
    requires LinkedState(s, path)
    ensures StaysLinked(s, path, Finish(false, s))
    ensures var r := Finish(false, s); r.Continue? ==>
              && r.s.alloc == s.alloc && (r.s.top == s.top <==> |path| == 1)
              && (|path| > 1 ==> r.s.top == path[|path| - 2])
  {
    var r := Finish(false, s);
    if r.Continue? {
      assert path[|path| - 1] == s.top;
      if |path| == 1 {
        assert s.nodes[path[0]].parent == NONE;
      } else {
        var k := |path| - 2;
        assert s.nodes[path[k + 1]].parent == path[k] && IsContainer(s.nodes[path[k]].kind);
        LinkedClose(s.nodes, r.s.nodes, s.alloc, path);
      }
    }
  }

  lemma LinkSetTop(s: State, s': State, path: seq<int>)
    requires LinkedState(s, path) && ValidTop(s) && s'.top == s.top && s'.alloc == s.alloc
    requires |s'.nodes| == |s.nodes| && s'.nodes == s.nodes[s.top := s'.nodes[s.top]] && SameLink(s.nodes[s.top], s'.nodes[s.top])
    ensures LinkedState(s', path)
  {
    LinkedSame(s.nodes, s'.nodes, s.alloc, path);
    ChainSame(s.nodes, s'.nodes, path);
  }

  lemma LinkPoke(s: State, path: seq<int>, out: string)
    requires LinkedState(s, path)
    ensures var r := Poke(s, out); r.Continue? ==> LinkedState(r.s, path) && r.s.alloc == s.alloc
  {
    hide Chain, Linked;
    var r := Poke(s, out);
    if r.Continue? {
      LinkSetTop(s, r.s, path);
    }
  }

  lemma LinkClose(s: State, path: seq<int>)
    requires LinkedState(s, path)
    ensures StaysLinked(s, path, CloseString(false, s))
  {
    hide Chain, Linked, Poke, Finish;
    LinkPoke(s, path, "\0");
    var p := Poke(s, "\0");
    if p.Continue? && ValidTop(s) {
      var n := p.s.nodes[p.s.top];
      var s1 := p.s.(ptr := s.ptr + 1, flags := p.s.flags.(inString := false));
      if n.kind.KString? {
        var s2 := SetTop(s1, n.(length := s.strLen));
        LinkSetTop(s1, s2, path);
        LinkFinish(s2, path);
      } else if CloseString(false, s).Continue? {
        LinkSetTop(s1, CloseString(false, s).s, path);
      }
    }
  }

  lemma LinkString(text: string, s: State, path: seq<int>)
    requires s.ptr <= |text| && LinkedState(s, path)
    ensures StaysLinked(s, path, StringStep(false, text, s))
  {
    hide Chain, Linked, Poke, CloseString, DecodeEscape;
    var b := At(text, s.ptr);
    if s.ptr < |text| && b != '\0' {
      if s.flags.escaped {
        var d := DecodeEscape(text, s.ptr);
        if d.Chars? { LinkPoke(s.(ptr := d.next, flags := s.flags.(escaped := false)), path, d.out); }
      } else {
        LinkClose(s, path);
        LinkPoke(s.(ptr := s.ptr + 1), path, [b]);
      }
    }
  }

  lemma LinkNew(cfg: Config, s: State, path: seq<int>, kind: Kind)
    requires LinkedState(s, path) && s.alloc < |s.nodes| && s.nodes[s.alloc].parent == s.top
    requires path != [] ==> IsContainer(s.nodes[s.top].kind)
    ensures var r := NewValue(false, cfg, s, kind);
            r.Continue? ==> r.s.top == s.alloc && r.s.alloc == s.alloc + 1 && r.s.top != s.top && LinkedState(r.s, path + [r.s.top])
  {
    hide Chain, Linked, Refused, Misplaced;
    if NewValue(false, cfg, s, kind).Continue? {
      var r := NewValue(false, cfg, s, kind).s;
      LinkedNew(s.nodes, r.nodes, s.alloc, path);
      PathBelow(s.nodes, s.alloc, path);
      ChainNew(s.nodes, r.nodes, s.alloc, path);
    }
  }

  lemma PathBelow(nodes: seq<Node>, alloc: nat, path: seq<int>)
    requires Linked(nodes, alloc, path)
    ensures forall k :: 0 <= k < |path| ==> 0 <= path[k] < alloc
  {
  }

  lemma ChainNew(nodes: seq<Node>, nodes': seq<Node>, alloc: nat, path: seq<int>)
    requires Chain(nodes, path) && (forall k :: 0 <= k < |path| ==> 0 <= path[k] < alloc) && alloc < |nodes| == |nodes'|
    requires forall k :: 0 <= k < alloc ==> nodes'[k] == nodes[k]
    requires nodes'[alloc].parent == if path == [] then NONE else path[|path| - 1]
    requires path != [] ==> IsContainer(nodes[path[|path| - 1]].kind)
    ensures Chain(nodes', path + [alloc])
  {
    var path' := path + [alloc];
    assert forall k :: 0 <= k < |path| ==> path'[k] == path[k] && nodes'[path[k]] == nodes[path[k]];
    forall j, k | 0 <= j < k < |path'| ensures path'[j] < path'[k] && IsContainer(nodes'[path'[j]].kind) {
      LastOfChain(nodes, path, j);
    }
  }

  /** The next node, if it is about to be taken, is meant for the container at `top`. */
  ghost predicate NextFits(s: State, path: seq<int>) {
    && s.alloc < |s.nodes| && s.nodes[s.alloc].parent == s.top
    && (path != [] ==> ValidTop(s) && IsContainer(s.nodes[s.top].kind))
  }

  lemma LastOfChain(nodes: seq<Node>, path: seq<int>, j: nat)
    requires Chain(nodes, path) && j < |path|
    ensures j < |path| - 1 ==> IsContainer(nodes[path[j]].kind)
  {
    if j < |path| - 1 {
      assert path[j] < path[|path| - 1];
    }
  }

  lemma LinkLiteral(cfg: Config, text: string, s: State, path: seq<int>, word: string, kind: Kind, truth: bool)
    requires LinkedState(s, path) && NextFits(s, path)
    ensures StaysLinked(s, path, Literal(false, cfg, text, s, word, kind, truth))
  {
    hide Chain, Linked, NewValue, Finish, Kids;
    LinkNew(cfg, s, path, kind);
    if NewValue(false, cfg, s, kind).Continue? {
      var r := NewValue(false, cfg, s, kind).s;
      var path' := path + [r.top];
      var n := r.nodes[r.top];
      var t := SetTop(r, n.(boolean := truth || n.boolean)).(ptr := s.ptr + |word|);
      BooleanKids(n, truth || n.boolean);
      LinkSetTop(r, t, path');
      LinkFinish(t, path');
      assert path'[..|path|] == path;
    }
  }

  lemma BooleanKids(n: Node, b: bool)
    ensures Kids(n.(boolean := b)) == Kids(n)
  {
  }

  lemma LinkNumber(cfg: Config, text: string, s: State, path: seq<int>)
    requires s.ptr <= |text| && LinkedState(s, path) && NextFits(s, path)
    ensures StaysLinked(s, path, NumberStart(false, cfg, text, s))
  {
    hide Chain, Linked, NewValue, Finish, Kids, SkipNumber;
    LinkNew(cfg, s, path, KInteger);
    if NewValue(false, cfg, s, KInteger).Continue? {
      var r := NewValue(false, cfg, s, KInteger).s.(ptr := SkipNumber(text, s.ptr));
      LinkFinish(r, path + [r.top]);
      assert (path + [r.top])[..|path|] == path;
    }
  }

  lemma LinkSeek(cfg: Config, text: string, s: State, path: seq<int>)
    requires s.ptr <= |text| && LinkedState(s, path)
    requires var r := SeekStep(false, cfg, text, s); r.Continue? && r.s.alloc > s.alloc ==> NextFits(s, path)
    ensures StaysLinked(s, path, SeekStep(false, cfg, text, s))
  {
    hide Chain, Linked, NewValue, Finish, Kids, Literal, NumberStart;
    var b := At(text, s.ptr);
    var r := SeekStep(false, cfg, text, s);
    var s' := s.(flags := s.flags.(seekValue := false));
    if IsSpace(b) || b == ']' || s.flags.needComma || s.flags.needColon {
      LinkFinish(s.(ptr := s.ptr + 1, flags := s.flags.(needComma := false, seekValue := false)), path);
    } else if r.Continue? {
      TakesNode(cfg, text, s);
      LinkLiteral(cfg, text, s', path, "true", KBoolean, true);
      LinkLiteral(cfg, text, s', path, "false", KBoolean, false);
      LinkLiteral(cfg, text, s', path, "null", KNull, false);
      LinkNumber(cfg, text, s', path);
      LinkNew(cfg, s'.(ptr := s.ptr + 1), path, KObject);
      LinkNew(cfg, s'.(ptr := s.ptr + 1, flags := s'.flags.(seekValue := true)), path, KArray);
      LinkNew(cfg, s'.(strLen := 0, ptr := s.ptr + 1, flags := s'.flags.(inString := true)), path, KString);
    }
  }

  lemma TakesNode(cfg: Config, text: string, s: State)
    requires s.ptr <= |text| && !s.flags.needComma && !s.flags.needColon
    requires var b := At(text, s.ptr); !IsSpace(b) && b != ']'
    ensures var r := SeekStep(false, cfg, text, s); r.Continue? ==> r.s.alloc == s.alloc + 1
  {
    hide SkipNumber, Word, WithBlocks, Refused, Misplaced, Literal;
    LiteralTakes(cfg, text, s.(flags := s.flags.(seekValue := false)));
  }

  lemma LiteralTakes(cfg: Config, text: string, s: State)
    ensures forall word, kind, truth :: var r := Literal(false, cfg, text, s, word, kind, truth); r.Continue? ==> r.s.alloc == s.alloc + 1
  {
    hide Word, WithBlocks, Refused, Misplaced;
  }

  lemma LinkStep(cfg: Config, text: string, s: State, path: seq<int>)
    requires s.ptr <= |text| && LinkedState(s, path) && !InNumber(s)
    requires var r := Step(false, cfg, text, s); r.Continue? && r.s.alloc > s.alloc ==> NextFits(s, path)
    ensures StaysLinked(s, path, Step(false, cfg, text, s))
  {
    hide StringStep, SeekStep, Finish, Chain, Linked, Kids;
    if s.flags.inString {
      LinkString(text, s, path);
    } else if cfg.comments && (s.flags.lineComment || s.flags.blockComment || At(text, s.ptr) == '/') {
    } else if s.flags.done {
    } else if s.flags.seekValue {
      LinkSeek(cfg, text, s, path);
    } else {
      LinkFinish(s.(ptr := s.ptr + 1, flags := s.flags.(needComma := false)), path);
    }
  }

  // ----- both passes to the end -----

  lemma LinkedStates(cfg: Config, s1: State, path: seq<int>, s2: State, final: seq<Node>)
    requires WF(cfg, s1, path) && Rel(s1, s2, final) && Covers(s1, path, final) && Linked(s2.nodes, s2.alloc, path)
    ensures LinkedState(s2, path)
  {
    forall i | 0 <= i < |s1.nodes|
      ensures s2.nodes[i].parent == s1.nodes[i].parent && IsContainer(s2.nodes[i].kind) == IsContainer(s1.nodes[i].kind)
    {
      assert Tracks(s1.nodes[i], s2.nodes[i], final[i]) && Grows(s1.nodes[i], final[i]);
    }
    ChainSame(s1.nodes, s2.nodes, path);
  }

  lemma LinkNext(cfg: Config, text: string, s1: State, path: seq<int>, s2: State, final: seq<Node>)
    requires s1.ptr <= |text| && WF(cfg, s1, path) && Rel(s1, s2, final) && Covers(s1, path, final)
    requires !InNumber(s1) && Linked(s2.nodes, s2.alloc, path)
    requires var r1, r2 := Step(true, cfg, text, s1), Step(false, cfg, text, s2);
             && r1.Continue? && Covers(r1.s, Next(s1, r1.s, path), final)
             && r2.Continue? && Rel(r1.s, r2.s, final)
    ensures Linked(Step(false, cfg, text, s2).s.nodes, Step(false, cfg, text, s2).s.alloc, Next(s1, Step(true, cfg, text, s1).s, path))
  {
    hide Step, Chain, Linked;
    LinkedStates(cfg, s1, path, s2, final);
    StepParent(cfg, text, s1, path);
    SameTop(cfg, s1, path, s2, final);
    var r1, r2 := Step(true, cfg, text, s1).s, Step(false, cfg, text, s2).s;
    if r2.alloc > s2.alloc {
      assert Grows(r1.nodes[|s1.nodes|], final[|s1.nodes|]);
      assert ValidTop(s1) ==> Tracks(s1.nodes[s1.top], s2.nodes[s1.top], final[s1.top]) && Grows(s1.nodes[s1.top], final[s1.top]);
    }
    LinkStep(cfg, text, s2, path);
  }

  lemma LinkNumberNext(cfg: Config, text: string, s1: State, path: seq<int>, s2: State, t: State, final: seq<Node>)
    requires s1.ptr <= |text| && WF(cfg, s1, path) && AtNumber(cfg, text, s1) && Rel(s1, s2, final) && Covers(s1, path, final)
    requires Linked(s2.nodes, s2.alloc, path) && |t.nodes| == |s1.nodes| + 1
    requires |s1.nodes| < |final| && final[|s1.nodes|].parent == s1.top && (path != [] ==> IsContainer(s1.nodes[s1.top].kind))
    requires var r := Step(false, cfg, text, s2); r.Continue? && Rel(t, r.s, final)
    ensures Linked(Step(false, cfg, text, s2).s.nodes, Step(false, cfg, text, s2).s.alloc, Next(s1, t, path))
  {
    hide Step, Chain, Linked;
    LinkedStates(cfg, s1, path, s2, final);
    SameTop(cfg, s1, path, s2, final);
    assert ValidTop(s1) ==> Tracks(s1.nodes[s1.top], s2.nodes[s1.top], final[s1.top]) && Grows(s1.nodes[s1.top], final[s1.top]);
    LinkStep(cfg, text, s2, path);
  }

  lemma LinkEnd(cfg: Config, text: string, s1: State, path: seq<int>, s2: State, final: seq<Node>)
    requires s1.ptr <= |text| && WF(cfg, s1, path) && Rel(s1, s2, final) && Step(true, cfg, text, s1) == Accept(final)
    requires Linked(s2.nodes, s2.alloc, path) && Covers(s1, path, final) && Complete(s2.nodes, final)
    ensures Shaped(s2.nodes)
  {
    hide Step;
    AcceptCovers(cfg, text, s1, path, final);
    LinkedStates(cfg, s1, path, s2, final);
    hide Mode, Covers;
    assert s2.nodes[path[0]].parent == NONE;
    forall c | 0 < c < |s2.nodes|
      ensures HasKid(s2.nodes, s2.nodes[c].parent, c)
    {
      assert path == [0] && c !in path;
    }
  }

  // ----- to the end -----

  /** How the second pass ends after a first pass that has left `final`, as the fate of these nodes tells. */
  ghost predicate Ends(r: Outcome, final: seq<Node>, fate: Fate) {
    match fate
    case Completes => r.Accept? && Complete(r.nodes, final) && ((forall i :: 0 <= i < |final| ==> !Oversized(final[i])) ==> Shaped(r.nodes))
    case Starves => final != [] && r == if Refused(final[0]) then Fault else Reject
    case Overruns => r == Fault
  }

  /** Both passes before the same character, neither inside a number. */
  ghost predicate InStep(cfg: Config, s1: State, path: seq<int>, s2: State, final: seq<Node>) {
    WF(cfg, s1, path) && Rel(s1, s2, final) && !InNumber(s1) && Linked(s2.nodes, s2.alloc, path) && Named(s1, final)
  }

  /** From states in step to the end. */
  lemma {:induction false} Follow(cfg: Config, text: string, s1: State, path: seq<int>, s2: State, final: seq<Node>)
    requires s1.ptr <= |text| && InStep(cfg, s1, path, s2, final) && Run(true, cfg, text, s1) == Accept(final)
    ensures Opened(s1, path, final) && s2.ptr <= |text|
    ensures Ends(Run(false, cfg, text, s2), final, FateOf(s1, path, final))
    decreases Measure(cfg, text, s1)
  {
    hide Step, AtNumber, Ends, Run, Measure, InStep, Opened, Told, Fits, Rel, FateFrom;
    StepFacts(cfg, text, s1, path, s2, final);
    RunStep(true, cfg, text, s1);
    RunStep(false, cfg, text, s2);
    if AtNumber(cfg, text, s1) || Step(true, cfg, text, s1).Continue? {
      var t1, path' := Move(cfg, text, s1, path, s2, final);
      if Fits(s1, t1, final) {
        SameFate(s1, path, t1, path', final);
        Follow(cfg, text, t1, path', Step(false, cfg, text, s2).s, final);
      } else {
        Stops(cfg, s1, path, s2, t1, path', Step(false, cfg, text, s2), final);
      }
    } else {
      Last(cfg, text, s1, path, s2, final);
    }
  }

  lemma SameFate(s: State, path: seq<int>, t: State, path': seq<int>, final: seq<Node>)
    requires Opened(s, path, final) && Opened(t, path', final) && |s.nodes| <= |t.nodes| && Told(s, path, t, path', final)
    requires Fits(s, t, final)
    ensures FateOf(s, path, final) == FateOf(t, path', final)
  {
    hide FateFrom, Fits;
  }

  lemma StepFacts(cfg: Config, text: string, s1: State, path: seq<int>, s2: State, final: seq<Node>)
    requires s1.ptr <= |text| && InStep(cfg, s1, path, s2, final) && Run(true, cfg, text, s1) == Accept(final)
    ensures s2.ptr == s1.ptr && |s1.nodes| <= |final| && Opened(s1, path, final)
  {
    hide Run, Covers, Opened, Mode;
    Foreseen(cfg, text, s1, path, final);
    OpenedBy(cfg, s1, path, final);
  }

  /** A number, or another step: the second pass mirrors it, the fate tells it, and if it fits the passes are in step again. */
  lemma Move(cfg: Config, text: string, s1: State, path: seq<int>, s2: State, final: seq<Node>)
    returns (t1: State, path': seq<int>)
    requires s1.ptr <= |text| && InStep(cfg, s1, path, s2, final) && Run(true, cfg, text, s1) == Accept(final)
    requires AtNumber(cfg, text, s1) || Step(true, cfg, text, s1).Continue?
    ensures s2.ptr <= |text| && t1.ptr <= |text| && Mirrors(s1, t1, Step(false, cfg, text, s2), final)
    ensures Run(true, cfg, text, t1) == Accept(final) && Measure(cfg, text, t1) < Measure(cfg, text, s1)
    ensures Opened(s1, path, final) && Opened(t1, path', final) && |s1.nodes| <= |t1.nodes| && Told(s1, path, t1, path', final)
    ensures Fits(s1, t1, final) ==> InStep(cfg, t1, path', Step(false, cfg, text, s2).s, final)
  {
    hide Step, WF, Rel, Covers, Linked, InNumber, AtNumber, Run, Measure, Opened, Told, Named, Fits;
    SameAlloc(s1, s2, final);
    Foreseen(cfg, text, s1, path, final);
    if AtNumber(cfg, text, s1) {
      var m;
      m, t1, path' := FollowNumber(cfg, text, s1, path, s2, final);
      NumberTold(cfg, text, s1, path, m, t1, final);
      if Fits(s1, t1, final) {
        CommaNotInNumber(t1);
        LinkNumberNext(cfg, text, s1, path, s2, t1, final);
        ToldNamed(s1, path, t1, path', final);
      }
    } else {
      t1 := Step(true, cfg, text, s1).s;
      path' := Next(s1, t1, path);
      StepWF(cfg, text, s1, path);
      StepProgress(true, cfg, text, s1);
      RunStep(true, cfg, text, s1);
      Foreseen(cfg, text, t1, path', final);
      FollowStep(cfg, text, s1, path, s2, final);
      StepTold(cfg, text, s1, path, final);
      if Fits(s1, t1, final) {
        LinkNext(cfg, text, s1, path, s2, final);
        StaysOut(cfg, text, s1, path);
        ToldNamed(s1, path, t1, path', final);
      }
    }
  }

  lemma ToldNamed(s: State, path: seq<int>, t: State, path': seq<int>, final: seq<Node>)
    requires Opened(s, path, final) && Opened(t, path', final) && |s.nodes| <= |t.nodes| && Told(s, path, t, path', final)
    requires Fits(s, t, final)
    ensures Named(t, final)
  {
    hide FateFrom, Fits;
  }

  lemma SameAlloc(s1: State, s2: State, final: seq<Node>)
    requires Rel(s1, s2, final)
    ensures s2.ptr == s1.ptr && |s1.nodes| <= |final|
  {
  }

  /** A step that does not fit ends the second pass as the nodes tell. */
  lemma Stops(cfg: Config, s1: State, path: seq<int>, s2: State, t1: State, path': seq<int>, r: Outcome, final: seq<Node>)
    requires InStep(cfg, s1, path, s2, final) && Mirrors(s1, t1, r, final) && !Fits(s1, t1, final)
    requires Opened(s1, path, final) && Opened(t1, path', final) && |s1.nodes| <= |t1.nodes| && Told(s1, path, t1, path', final)
    ensures !r.Continue? && Ends(r, final, FateOf(s1, path, final))
  {
    hide FateFrom, Fits, Refused, Misplaced, Spills, Complete, Linked, Chain, Mode;
    if |s1.nodes| > 0 && final != [] {
      assert Tracks(s1.nodes[0], s2.nodes[0], final[0]);
    }
  }

  lemma Last(cfg: Config, text: string, s1: State, path: seq<int>, s2: State, final: seq<Node>)
    requires s1.ptr <= |text| && InStep(cfg, s1, path, s2, final) && Step(true, cfg, text, s1) == Accept(final)
    requires Opened(s1, path, final) && s2.ptr <= |text|
    ensures Step(false, cfg, text, s2).Accept? && Ends(Step(false, cfg, text, s2), final, FateOf(s1, path, final))
  {
    hide Step, WF, Rel, Covers, Linked, InNumber, Complete, Shaped, Run;
    RunStep(true, cfg, text, s1);
    Foreseen(cfg, text, s1, path, final);
    FollowEnd(cfg, text, s1, path, s2, final);
    AcceptCovers(cfg, text, s1, path, final);
    LinkEnd(cfg, text, s1, path, s2, final);
    RootCompletes(s1, path, final);
  }

  lemma RootCompletes(s: State, path: seq<int>, final: seq<Node>)
    requires Opened(s, path, final) && |s.nodes| == |final| && |path| == 1
    ensures FateOf(s, path, final) == Completes
  {
    hide Within, Given;
    assert FateFrom(final, |final|, []) == Completes;
    assert |Places(s.nodes, path)| - 1 == 0;
  }

  /** If the first pass accepts a text, the second ends as the fate of its nodes tells. */
  lemma SecondPassFollows(cfg: Config, text: string)
    requires Run(true, cfg, text, Start([])).Accept?
    ensures var final := Run(true, cfg, text, Start([])).nodes;
            Ends(Run(false, cfg, text, Start(final)), final, FateFrom(final, 0, []))
  {
    hide Ends;
    var final := Run(true, cfg, text, Start([])).nodes;
    Follow(cfg, text, Start([]), [], Start(final), final);
    assert Places(Start([]).nodes, []) == [];
  }

  /** An object is oversized iff it has more than 89478485 members. */
  lemma OversizedIff(n: Node)
    ensures Oversized(n) <==> n.kind.KObject? && n.length > MAX_MEMBERS
  {
  }

  /**
   On any text: the parse reaches outside a block exactly if its nodes tell so, and follows a null
   pointer exactly if the root is refused its block.
   */
  lemma FaultIff(cfg: Config, json: string)
    ensures var first := Run(true, cfg, SkipMark(json), Start([]));
            Parse(cfg, json).Fault? <==>
              && first.Accept?
              && (FateFrom(first.nodes, 0, []).Overruns? || (first.nodes != [] && Refused(first.nodes[0])))
  {
    hide Run, Complete, Shaped, Refused, FateFrom;
    var text := SkipMark(json);
    FirstPassSafe(cfg, text, Start([]), []);
    var first := Run(true, cfg, text, Start([]));
    if first.Accept? {
      SecondPassFollows(cfg, text);
      RootRefused(first.nodes);
    }
  }

  lemma RootRefused(final: seq<Node>)
    ensures final != [] && Refused(final[0]) ==> FateFrom(final, 0, []) == Starves
  {
  }
}
