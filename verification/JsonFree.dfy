/**
 Freeing a document (src/json.c, json_value_free_ex).

 The walk has no stack: it goes down by shortening the container it is in, and up through parent
 pointers. It frees every node once, and once every block a node owns.
 */
module JsonFree {
  import opened JsonParser
  import opened JsonPasses
  import opened JsonTree

  /** The pointer to the block leads to one, or is null. */
  predicate Freeable(n: Node) { n.kind.KObject? && n.slots == [] ==> n.names == 0 }

  predicate OwnsBlock(k: Kind) { IsContainer(k) || k.KString? }

  class Document {
    var nodes: seq<Node>
    ghost var freed: set<int>    // nodes given back
    ghost var blocks: set<int>   // nodes whose block was given back

    constructor (nodes: seq<Node>)
      ensures this.nodes == nodes && freed == {} && blocks == {}
    {
      this.nodes := nodes;
      freed, blocks := {}, {};
    }

    /** mem_free of a node; giving it back twice, or after losing it, is an error. */
    method FreeNode(i: int)
      requires 0 <= i < |nodes| && i !in freed
      modifies this`freed
      ensures freed == old(freed) + {i}
    {
      freed := freed + {i};
    }

    /** mem_free of a block, or of null: where an object has no block, the pointer to it counts name bytes. */
    method FreeBlock(i: int)
      requires 0 <= i < |nodes| && i !in freed && i !in blocks && OwnsBlock(nodes[i].kind) && Freeable(nodes[i])
      modifies this`blocks
      ensures blocks == old(blocks) + {i}
    {
      blocks := blocks + {i};
    }

    /** Takes the last entry off a container. */
    method TakeLast(i: int) returns (c: int)
      requires 0 <= i < |nodes| && i !in freed && i !in blocks
      requires IsContainer(nodes[i].kind) && 0 < nodes[i].length <= |nodes[i].slots|
      modifies this`nodes
      ensures nodes == old(nodes)[i := old(nodes)[i].(length := old(nodes)[i].length - 1)]
      ensures c == old(nodes)[i].slots[old(nodes)[i].length - 1].value
    {
      nodes := nodes[i := nodes[i].(length := nodes[i].length - 1)];
      c := nodes[i].slots[nodes[i].length].value;
    }

    /** Gives back a node that holds no more entries, and its block; goes up. */
    method Release(i: int) returns (parent: int)
      requires 0 <= i < |nodes| && i !in freed && i !in blocks && Freeable(nodes[i])
      modifies this`freed, this`blocks
      ensures parent == nodes[i].parent
      ensures freed == old(freed) + {i}
      ensures blocks == if OwnsBlock(nodes[i].kind) then old(blocks) + {i} else old(blocks)
    {
      if OwnsBlock(nodes[i].kind) {
        FreeBlock(i);
      }
      parent := nodes[i].parent;
      FreeNode(i);
    }

    method FreeEx()
      requires IsTree(nodes) && freed == {} && blocks == {}
      modifies this
      ensures |nodes| == |old(nodes)|
      ensures forall i :: i in freed <==> 0 <= i < |nodes|
      ensures forall i :: i in blocks <==> 0 <= i < |nodes| && OwnsBlock(old(nodes)[i].kind)
    {
      hide IsTree, Freeable, Walk, ShapeOf, Lengths, Holds, Given, Indices, IsContainer, OwnsBlock;
      ghost var tree := nodes;
      ghost var shape := ShapeOf(tree);
      ghost var left := Lengths(shape);
      ghost var path := [0];
      var value := 0;
      NoneGiven(tree);
      StartWalk(tree);
      while value != NONE
        invariant Walk(shape, left, path, freed) && Holds(tree, nodes, shape, left)
        invariant Given(tree, freed, blocks)
        invariant value == if path == [] then NONE else path[|path| - 1]
        decreases Indices(|tree|) - freed, |tree| - |path|
      {
        InWalk(shape, left, path, freed);
        HoldsAt(tree, nodes, shape, left, value);
        GiveBlock(tree, freed, blocks, value);
        if IsContainer(nodes[value].kind) && nodes[value].length > 0 {
          left, path := Down(tree, nodes, shape, left, path, freed);
          value := TakeLast(value);
        } else {
          UpWalk(shape, left, path, freed);
          StillFreeable(tree, nodes, shape, left, value);
          value := Release(value);
          path := path[..|path| - 1];
        }
      }
      if path != [] {
        InWalk(shape, left, path, freed);
      }
      EndWalk(shape, left, freed);
      HoldsAt(tree, nodes, shape, left, 0);
      GivenAll(tree, freed, blocks);
    }
  }

  /** The blocks given back are those of the nodes given back. */
  ghost predicate Given(tree: seq<Node>, freed: set<int>, blocks: set<int>) {
    forall i :: i in blocks <==> i in freed && 0 <= i < |tree| && OwnsBlock(tree[i].kind)
  }

  lemma NoneGiven(tree: seq<Node>)
    ensures Given(tree, {}, {})
  {
  }

  lemma GiveBlock(tree: seq<Node>, freed: set<int>, blocks: set<int>, v: int)
    requires Given(tree, freed, blocks) && 0 <= v < |tree| && v !in freed
    ensures v !in blocks && v in Indices(|tree|)
    ensures Given(tree, freed + {v}, if OwnsBlock(tree[v].kind) then blocks + {v} else blocks)
  {
  }

  lemma GivenAll(tree: seq<Node>, freed: set<int>, blocks: set<int>)
    requires Given(tree, freed, blocks) && forall i :: i in freed <==> 0 <= i < |tree|
    ensures forall i :: i in blocks <==> 0 <= i < |tree| && OwnsBlock(tree[i].kind)
  {
  }

  /** An object keeps its block, or null, while its entries are taken off. */
  lemma StillFreeable(tree: seq<Node>, nodes: seq<Node>, sh: Shape, left: seq<nat>, v: int)
    requires IsTree(tree) && Holds(tree, nodes, sh, left) && 0 <= v < |nodes|
    ensures Freeable(nodes[v])
  {
    hide GoodKids, HasKid, Oversized;
    assert HoldsNode(tree[v], nodes[v], sh.parents[v], sh.kids[v], left[v]) && Sound(tree[v]);
  }

  // ----- the walk, on parents and entries alone -----

  datatype Shape = Shape(parents: seq<int>, kids: seq<seq<int>>)

  ghost predicate GoodShape(sh: Shape) {
    && |sh.parents| == |sh.kids| > 0 && sh.parents[0] == NONE
    && (forall i, c {:trigger c in sh.kids[i]} :: 0 <= i < |sh.kids| && c in sh.kids[i] ==> i < c < |sh.kids| && sh.parents[c] == i)
    && (forall i, j, k :: 0 <= i < |sh.kids| && 0 <= j < k < |sh.kids[i]| ==> sh.kids[i][j] < sh.kids[i][k])
    && (forall c :: 0 < c < |sh.parents| ==> 0 <= sh.parents[c] < c && c in sh.kids[sh.parents[c]])
  }

  /** `c` has not been reached yet: it is among the entries its parent still has. */
  ghost predicate Waiting(sh: Shape, left: seq<nat>, c: int) {
    && |left| == |sh.kids| == |sh.parents| && 0 < c < |sh.parents| && 0 <= sh.parents[c] < c
    && left[sh.parents[c]] <= |sh.kids[sh.parents[c]]|
    && c in sh.kids[sh.parents[c]][..left[sh.parents[c]]]
  }

  ghost predicate Descends(sh: Shape, path: seq<int>) {
    && (path != [] ==> path[0] == 0)
    && (forall k :: 0 <= k < |path| ==> 0 <= path[k] < |sh.parents|)
    && (forall j, k :: 0 <= j < k < |path| ==> path[j] < path[k])
    && (forall j, k :: 0 <= j < k < |path| && k == j + 1 ==> sh.parents[path[k]] == path[j])
  }

  /** `left` is how many entries each node still has; `path` leads from the root to the current value. */
  ghost predicate Walk(sh: Shape, left: seq<nat>, path: seq<int>, freed: set<int>) {
    && GoodShape(sh) && |left| == |sh.kids| && Descends(sh, path)
    && (forall i :: 0 <= i < |left| ==> left[i] <= |sh.kids[i]|)
    && (forall i :: i in freed ==> 0 <= i < |left| && left[i] == 0 && i !in path)
    && (forall c :: Waiting(sh, left, c) ==> c !in freed && c !in path && left[c] == |sh.kids[c]|)
    && (forall c :: 0 <= c < |left| && c !in path && !Waiting(sh, left, c) ==> c in freed)
  }

  predicate IsIndex(i: int, n: nat) { 0 <= i < n }

  ghost function Indices(n: nat): set<int> { set i | 0 <= i < n && IsIndex(i, n) }

  ghost function Lengths(sh: Shape): (left: seq<nat>)
    ensures |left| == |sh.kids| && forall i :: 0 <= i < |left| ==> left[i] == |sh.kids[i]|
  {
    seq(|sh.kids|, i requires 0 <= i < |sh.kids| => |sh.kids[i]|)
  }

  lemma {:induction false} PathFits(sh: Shape, path: seq<int>)
    requires Descends(sh, path)
    ensures |path| <= |sh.parents| && (path != [] ==> |path| - 1 <= path[|path| - 1])
  {
    if |path| > 1 {
      var path' := path[..|path| - 1];
      assert forall k :: 0 <= k < |path'| ==> path'[k] == path[k];
      PathFits(sh, path');
      assert path[|path| - 2] < path[|path| - 1];
    }
  }

  lemma InWalk(sh: Shape, left: seq<nat>, path: seq<int>, freed: set<int>)
    requires Walk(sh, left, path, freed) && path != []
    ensures var v := path[|path| - 1];
            && 0 <= v < |sh.parents| == |left| && v !in freed && |path| <= |sh.parents|
            && sh.parents[v] == if |path| == 1 then NONE else path[|path| - 2]
  {
    PathFits(sh, path);
    if |path| > 1 {
      var k := |path| - 2;
      assert sh.parents[path[k + 1]] == path[k];
    }
  }

  lemma DownWalk(sh: Shape, left: seq<nat>, path: seq<int>, freed: set<int>)
    requires Walk(sh, left, path, freed) && path != []
    requires var v := path[|path| - 1]; 0 <= v < |left| && 0 < left[v]
    ensures var v := path[|path| - 1];
            left[v] <= |sh.kids[v]| && Walk(sh, left[v := left[v] - 1], path + [sh.kids[v][left[v] - 1]], freed)
  {
    var v := path[|path| - 1];
    var left' := left[v := left[v] - 1];
    var c := sh.kids[v][left[v] - 1];
    WaitingDown(sh, left, v);
    DescendsDown(sh, path, c);
    hide Waiting, Descends, GoodShape;
    assert Waiting(sh, left, c) && v in path;
  }

  /** One step down: what is then left, and the longer path. */
  lemma Down(tree: seq<Node>, nodes: seq<Node>, sh: Shape, left: seq<nat>, path: seq<int>, freed: set<int>)
    returns (left': seq<nat>, path': seq<int>)
    requires Walk(sh, left, path, freed) && Holds(tree, nodes, sh, left) && path != []
    requires var v := path[|path| - 1]; 0 <= v < |nodes| && IsContainer(nodes[v].kind) && 0 < nodes[v].length
    ensures var v := path[|path| - 1];
            var n := nodes[v];
            && Walk(sh, left', path', freed) && Holds(tree, nodes[v := n.(length := n.length - 1)], sh, left')
            && n.length <= |n.slots| && path' == path + [n.slots[n.length - 1].value] && |path'| <= |tree|
            && path'[|path|] != NONE
  {
    var v := path[|path| - 1];
    HoldsDown(tree, nodes, sh, left, v);
    DownWalk(sh, left, path, freed);
    left' := left[v := left[v] - 1];
    path' := path + [nodes[v].slots[nodes[v].length - 1].value];
    hide Walk;
    InWalk(sh, left', path', freed);
  }

  lemma DescendsDown(sh: Shape, path: seq<int>, c: int)
    requires Descends(sh, path) && path != [] && 0 <= c < |sh.parents|
    requires sh.parents[c] == path[|path| - 1] < c
    ensures Descends(sh, path + [c])
  {
    forall j, k | 0 <= j < k < |path| + 1
      ensures path[j] < (path + [c])[k]
    {
      assert j == |path| - 1 || path[j] < path[|path| - 1];
    }
  }

  /** Taking the last entry `c` off `v` makes `c`, and nothing else, wait no longer. */
  lemma WaitingDown(sh: Shape, left: seq<nat>, v: int)
    requires GoodShape(sh) && |left| == |sh.kids| && 0 <= v < |left| && 0 < left[v] <= |sh.kids[v]|
    ensures var left' := left[v := left[v] - 1];
            var c := sh.kids[v][left[v] - 1];
            && v < c < |left| && sh.parents[c] == v && Waiting(sh, left, c)
            && forall x :: Waiting(sh, left', x) <==> Waiting(sh, left, x) && x != c
  {
    var c := sh.kids[v][left[v] - 1];
    var kids := sh.kids[v];
    assert c in kids && kids[..left[v]] == kids[..left[v] - 1] + [c];
    assert c !in kids[..left[v] - 1];
  }

  lemma UpWalk(sh: Shape, left: seq<nat>, path: seq<int>, freed: set<int>)
    requires Walk(sh, left, path, freed) && path != []
    requires var v := path[|path| - 1]; 0 <= v < |left| && left[v] == 0
    ensures Walk(sh, left, path[..|path| - 1], freed + {path[|path| - 1]})
  {
    hide Waiting, Descends, GoodShape;
    UpPath(sh, path);
    WalkOrder(sh, left, path, freed);
    var v := path[|path| - 1];
    assert v in path;
  }

  lemma WalkOrder(sh: Shape, left: seq<nat>, path: seq<int>, freed: set<int>)
    requires Walk(sh, left, path, freed)
    ensures Descends(sh, path)
  {
  }

  /** A path without its last node. */
  lemma UpPath(sh: Shape, path: seq<int>)
    requires path != []
    ensures Descends(sh, path) ==> Descends(sh, path[..|path| - 1]) && path[|path| - 1] !in path[..|path| - 1]
    ensures forall x :: x in path <==> x == path[|path| - 1] || x in path[..|path| - 1]
  {
    var path' := path[..|path| - 1];
    assert path == path' + [path[|path| - 1]];
  }

  lemma EndWalk(sh: Shape, left: seq<nat>, freed: set<int>)
    requires Walk(sh, left, [], freed)
    ensures forall i :: i in freed <==> 0 <= i < |left|
  {
    forall c | 0 <= c < |left|
      ensures c in freed
    {
      Reached(sh, left, freed, c);
    }
  }

  /** When the walk is over nothing is left waiting: a parent has lost its entries before it was freed. */
  lemma {:induction false} Reached(sh: Shape, left: seq<nat>, freed: set<int>, c: int)
    requires Walk(sh, left, [], freed) && 0 <= c < |left|
    ensures c in freed
    decreases c
  {
    if c > 0 {
      Reached(sh, left, freed, sh.parents[c]);
    }
    assert !Waiting(sh, left, c);
  }

  // ----- nodes and shape -----

  ghost function ShapeOf(tree: seq<Node>): (sh: Shape)
    ensures |sh.parents| == |sh.kids| == |tree|
    ensures forall i :: 0 <= i < |tree| ==> sh.parents[i] == tree[i].parent && sh.kids[i] == Kids(tree[i])
  {
    Shape(seq(|tree|, i requires 0 <= i < |tree| => tree[i].parent), seq(|tree|, i requires 0 <= i < |tree| => Kids(tree[i])))
  }

  /** The nodes are those of `tree`, with `left` entries. */
  ghost predicate Holds(tree: seq<Node>, nodes: seq<Node>, sh: Shape, left: seq<nat>) {
    && |nodes| == |tree| == |left| == |sh.parents| == |sh.kids|
    && forall i :: 0 <= i < |tree| ==> HoldsNode(tree[i], nodes[i], sh.parents[i], sh.kids[i], left[i])
  }

  ghost predicate HoldsNode(t: Node, n: Node, parent: int, kids: seq<int>, left: nat) {
    && n == t.(length := n.length) && n.parent == parent && kids == Kids(t)
    && (if IsContainer(t.kind) then n.length == left <= t.length == |t.slots| else left == 0)
  }

  lemma StartWalk(tree: seq<Node>)
    requires IsTree(tree)
    ensures var sh := ShapeOf(tree);
            Walk(sh, Lengths(sh), [0], {}) && Holds(tree, tree, sh, Lengths(sh))
  {
    StartShape(tree);
    FirstStep(ShapeOf(tree));
    StartHolds(tree);
  }

  lemma FirstStep(sh: Shape)
    requires GoodShape(sh)
    ensures Walk(sh, Lengths(sh), [0], {})
  {
    forall c | 0 < c < |sh.parents|
      ensures Waiting(sh, Lengths(sh), c)
    {
      var p := sh.parents[c];
      assert sh.kids[p][..|sh.kids[p]|] == sh.kids[p];
    }
  }

  lemma StartHolds(tree: seq<Node>)
    requires Shaped(tree)
    ensures Holds(tree, tree, ShapeOf(tree), Lengths(ShapeOf(tree)))
  {
    hide ShapeOf, Lengths, GoodKids, HasKid;
  }

  lemma StartShape(tree: seq<Node>)
    requires Shaped(tree)
    ensures GoodShape(ShapeOf(tree))
  {
    var sh := ShapeOf(tree);
    hide Kids, ShapeOf;
    forall i | 0 <= i < |tree|
      ensures GoodKids(tree, i, |tree|)
    {
    }
    forall c | 0 < c < |tree|
      ensures 0 <= sh.parents[c] < c && c in sh.kids[sh.parents[c]]
    {
      assert HasKid(tree, tree[c].parent, c);
    }
    hide Shaped, HasKid;
    forall i | 0 <= i < |tree|
      ensures forall c :: c in sh.kids[i] ==> i < c < |tree| && tree[c].parent == i
      ensures forall j, k :: 0 <= j < k < |sh.kids[i]| ==> sh.kids[i][j] < sh.kids[i][k]
    {
      assert GoodKids(tree, i, |tree|);
    }
    hide GoodKids;
  }

  lemma HoldsAt(tree: seq<Node>, nodes: seq<Node>, sh: Shape, left: seq<nat>, v: int)
    requires Holds(tree, nodes, sh, left)
    ensures |nodes| == |tree| == |left| == |sh.parents| == |sh.kids|
    ensures 0 <= v < |nodes| ==>
              && nodes[v].kind == tree[v].kind && nodes[v].parent == sh.parents[v]
              && left[v] == (if IsContainer(nodes[v].kind) then nodes[v].length else 0)
              && (IsContainer(nodes[v].kind) ==> nodes[v].length <= |nodes[v].slots|)
  {
  }

  lemma HoldsDown(tree: seq<Node>, nodes: seq<Node>, sh: Shape, left: seq<nat>, v: int)
    requires Holds(tree, nodes, sh, left) && 0 <= v < |nodes| && IsContainer(nodes[v].kind) && 0 < nodes[v].length
    ensures left[v] == nodes[v].length <= |nodes[v].slots| && left[v] <= |sh.kids[v]|
    ensures nodes[v].slots[left[v] - 1].value == sh.kids[v][left[v] - 1]
    ensures Holds(tree, nodes[v := nodes[v].(length := nodes[v].length - 1)], sh, left[v := left[v] - 1])
  {
    assert HoldsNode(tree[v], nodes[v], sh.parents[v], sh.kids[v], left[v]);
    assert HoldsNode(tree[v], nodes[v].(length := nodes[v].length - 1), sh.parents[v], sh.kids[v], left[v] - 1);
  }
}
