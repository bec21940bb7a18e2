/** What becomes of the second pass of src/json.c over a JSON text, told from the text. */
module JsonSizes {
  import opened JsonParser
  import opened JsonSecondPass
  import opened JsonFate
  import opened JsonFirstReading
  import opened JsonSecondReading
  import N = JsonNumbers
  import T = JsonText

  /** The first of two in a row that does not go well. */
  function Then(f: Fate, g: Fate): Fate { if f.Completes? then g else f }

  /** The node of an object, as the first pass leaves it. */
  function Header(ms: T.Members, parent: int): Node
    requires T.GoodMembers(ms)
  {
    FreshNode(KObject, parent).(length := CountMembers(ms), names := NameBytes(ms))
  }

  function ValueFate(v: T.Value): Fate
    requires T.Good(v)
    decreases v
  {
    match v
    case Array(_, items) => ItemsFate(items)
    case Object(_, ms) =>
      var n := Header(ms, NONE);
      if Refused(n) then Starves else if Misplaced(n) then Overruns else MembersFate(n, 0, ms)
    case _ => Completes
  }

  function ItemsFate(items: T.Items): Fate
    requires T.GoodItems(items)
    decreases items
  {
    if items.NoItems? then Completes else Then(ValueFate(items.value), ItemsFate(items.rest))
  }

  /** The members of an object from the `k`th on. */
  function MembersFate(n: Node, k: nat, ms: T.Members): Fate
    requires T.GoodMembers(ms)
    decreases ms
  {
    if ms.NoMembers? then Completes
    else if !Within(n, 24 * k + 12) then Overruns
    else Then(ValueFate(ms.value), if !Within(n, 24 * k + 24) then Overruns else MembersFate(n, k + 1, ms.rest))
  }

  // ----- on the nodes of the text -----

  predicate Lies(final: seq<Node>, at: nat, block: seq<Node>) {
    at + |block| <= |final| && final[at..at + |block|] == block
  }

  lemma LiesParts(final: seq<Node>, at: nat, a: seq<Node>, b: seq<Node>)
    requires Lies(final, at, a + b)
    ensures Lies(final, at, a) && Lies(final, at + |a|, b)
    ensures a != [] ==> final[at] == a[0]
    ensures b != [] ==> final[at + |a|] == b[0]
  {
    var w := final[at..at + |a + b|];
    assert w[..|a|] == a && w[|a|..] == b;
    assert forall k :: 0 <= k < |a + b| ==> w[k] == final[at + k];
  }

  lemma LiesFirst(final: seq<Node>, at: nat, block: seq<Node>)
    requires Lies(final, at, block) && block != []
    ensures at < |final| && final[at] == block[0]
  {
    assert final[at..at + |block|][0] == final[at];
  }

  /** Open values, of which all but the last hold others. */
  ghost predicate Placed(final: seq<Node>, at: nat, open: seq<Place>) {
    at <= |final| && forall k :: 0 <= k < |open| ==> 0 <= open[k].node < at
  }

  function Parent(open: seq<Place>): int { if open == [] then NONE else open[|open| - 1].node }

  /** The last of the open values has `count` entries more. */
  function More(open: seq<Place>, count: nat): seq<Place>
    requires open != []
  {
    var k := |open| - 1;
    open[..k] + [Place(open[k].node, open[k].done + count)]
  }

  /** A value is complete, and the nodes from `at` on are still to come. */
  ghost function Finished(final: seq<Node>, at: nat, open: seq<Place>): Fate
    requires Placed(final, at, open)
  {
    if open == [] then FateFrom(final, at, [])
    else if !Within(final[Parent(open)], 24 * open[|open| - 1].done + 24) then Overruns
    else FateFrom(final, at, More(open, 1))
  }

  /** The nodes from `at` on belong to none of those from `from` on. */
  predicate Outer(final: seq<Node>, at: nat, from: int) { at < |final| ==> final[at].parent < from }

  lemma PopLast(final: seq<Node>, at: nat, open: seq<Place>, last: Place)
    requires Placed(final, at, open + [last]) && Outer(final, at, last.node)
    ensures Placed(final, at, open) && FateFrom(final, at, open + [last]) == Finished(final, at, open)
  {
    hide Within, Refused, Misplaced;
    var all := open + [last];
    assert all[|all| - 1] == last;
    assert forall k :: 0 <= k < |open| ==> all[k] == open[k];
    if open != [] {
      assert JsonFate.Entered(all) == More(open, 1);
    } else {
      assert all[..0] == [];
    }
  }

  /** The next node is taken. */
  lemma Push(final: seq<Node>, at: nat, open: seq<Place>)
    requires Placed(final, at, open) && at < |final| && final[at].parent == Parent(open)
    requires open != [] ==> Within(final[Parent(open)], 24 * open[|open| - 1].done + 12)
    ensures FateFrom(final, at, open) ==
              if Refused(final[at]) then Starves else if Misplaced(final[at]) then Overruns
              else FateFrom(final, at + 1, open + [Place(at, 0)])
  {
    hide Within, Refused, Misplaced;
  }

  /** A value: what becomes of it, and then of the rest. */
  lemma {:induction false} WalkValue(final: seq<Node>, v: T.Value, at: nat, open: seq<Place>)
    requires T.Good(v) && Placed(final, at, open) && Lies(final, at, Skel(v, Parent(open), at))
    requires Outer(final, at + Width(v), at)
    requires open != [] ==> Within(final[Parent(open)], 24 * open[|open| - 1].done + 12)
    ensures at + Width(v) <= |final|
    ensures FateFrom(final, at, open) == Then(ValueFate(v), Finished(final, at + Width(v), open))
    decreases v, 1
  {
    hide FateFrom, Within, Skel, Finished, ValueFate, Lies, Width;
    match v
    case Array(gap, items) => WalkArray(final, gap, items, at, open);
    case Object(gap, ms) => WalkObject(final, gap, ms, at, open);
    case _ => WalkLeaf(final, v, at, open);
  }

  lemma WalkLeaf(final: seq<Node>, v: T.Value, at: nat, open: seq<Place>)
    requires !v.Array? && !v.Object?
    requires T.Good(v) && Placed(final, at, open) && Lies(final, at, Skel(v, Parent(open), at))
    requires Outer(final, at + Width(v), at)
    requires open != [] ==> Within(final[Parent(open)], 24 * open[|open| - 1].done + 12)
    ensures at + Width(v) <= |final|
    ensures FateFrom(final, at, open) == Then(ValueFate(v), Finished(final, at + Width(v), open))
  {
    hide FateFrom, Within, Refused, Misplaced, Finished, Skel;
    LiesFirst(final, at, Skel(v, Parent(open), at));
    Push(final, at, open);
    LeafKind(v, Parent(open), at);
    NoneSpills(final[at]);
    PopLast(final, at + 1, open, Place(at, 0));
  }

  lemma {:induction false} WalkArray(final: seq<Node>, gap: string, items: T.Items, at: nat, open: seq<Place>)
    requires var v := T.Array(gap, items);
             && T.Good(v) && Placed(final, at, open) && Lies(final, at, Skel(v, Parent(open), at))
             && Outer(final, at + Width(v), at)
    requires open != [] ==> Within(final[Parent(open)], 24 * open[|open| - 1].done + 12)
    ensures var v := T.Array(gap, items);
            && at + Width(v) <= |final|
            && FateFrom(final, at, open) == Then(ValueFate(v), Finished(final, at + Width(v), open))
    decreases items, 2
  {
    hide FateFrom, Within, Refused, Misplaced, SkelItems, Count, Finished, ItemsFate;
    var n, rest, w := FreshNode(KArray, Parent(open)).(length := Count(items)), SkelItems(items, at, at + 1), at + 1 + WidthItems(items);
    var all := open + [Place(at, 0)];
    LiesParts(final, at, [n], rest);
    SkelItemsWidth(items, at, at + 1);
    Push(final, at, open);
    NoneSpills(final[at]);
    WalkItems(final, items, at + 1, all);
    assert More(all, Count(items)) == open + [Place(at, Count(items))];
    PopLast(final, w, open, Place(at, Count(items)));
  }

  lemma {:induction false} WalkObject(final: seq<Node>, gap: string, ms: T.Members, at: nat, open: seq<Place>)
    requires var v := T.Object(gap, ms);
             && T.Good(v) && Placed(final, at, open) && Lies(final, at, Skel(v, Parent(open), at))
             && Outer(final, at + Width(v), at)
    requires open != [] ==> Within(final[Parent(open)], 24 * open[|open| - 1].done + 12)
    ensures var v := T.Object(gap, ms);
            && at + Width(v) <= |final|
            && FateFrom(final, at, open) == Then(ValueFate(v), Finished(final, at + Width(v), open))
    decreases ms, 2
  {
    hide FateFrom, Within, Refused, Misplaced, SkelMembers, CountMembers, NameBytes, Finished, MembersFate;
    var n, rest, w := Header(ms, Parent(open)), SkelMembers(ms, at, at + 1), at + 1 + WidthMembers(ms);
    var all := open + [Place(at, 0)];
    LiesParts(final, at, [n], rest);
    SkelMembersWidth(ms, at, at + 1);
    Push(final, at, open);
    HeaderSame(ms, Parent(open));
    WalkMembers(final, ms, at + 1, all, Header(ms, NONE));
    assert More(all, CountMembers(ms)) == open + [Place(at, CountMembers(ms))];
    PopLast(final, w, open, Place(at, CountMembers(ms)));
  }

  lemma LeafKind(v: T.Value, parent: int, at: nat)
    requires T.Good(v) && !v.Array? && !v.Object?
    ensures Width(v) == 1 && !Skel(v, parent, at)[0].kind.KObject?
  {
  }

  /** Whose child an object is does not matter to what becomes of it. */
  lemma HeaderSame(ms: T.Members, parent: int)
    requires T.GoodMembers(ms)
    ensures var n, m := Header(ms, NONE), Header(ms, parent);
            && (Refused(n) <==> Refused(m)) && (Misplaced(n) <==> Misplaced(m))
            && forall bytes :: Within(n, bytes) <==> Within(m, bytes)
  {
    hide NameBytes, CountMembers, Wrapped, BlockSize, NamesAt;
  }

  lemma {:induction false} WalkItems(final: seq<Node>, items: T.Items, at: nat, open: seq<Place>)
    requires T.GoodItems(items) && open != [] && Placed(final, at, open) && Lies(final, at, SkelItems(items, Parent(open), at))
    requires Outer(final, at + WidthItems(items), Parent(open) + 1) && !final[Parent(open)].kind.KObject?
    ensures at + WidthItems(items) <= |final|
    ensures FateFrom(final, at, open) == Then(ItemsFate(items), FateFrom(final, at + WidthItems(items), More(open, Count(items))))
    decreases items, 1
  {
    hide FateFrom, Within, Refused, Misplaced, Skel, ValueFate, Lies;
    SkelItemsWidth(items, Parent(open), at);
    if items.NoItems? {
      assert More(open, 0) == open;
    } else {
      var p, w := Parent(open), at + Width(items.value);
      NoneSpills(final[p]);
      SkelWidth(items.value, p, at);
      SkelItemsFirst(items.rest, p, w);
      LiesParts(final, at, Skel(items.value, p, at), SkelItems(items.rest, p, w));
      WalkValue(final, items.value, at, open);
      var open' := More(open, 1);
      WalkItems(final, items.rest, w, open');
      assert More(open', Count(items.rest)) == More(open, Count(items));
    }
  }

  lemma SkelItemsFirst(items: T.Items, parent: int, at: nat)
    requires T.GoodItems(items)
    ensures SkelItems(items, parent, at) != [] ==> SkelItems(items, parent, at)[0].parent == parent
    ensures items.Item? <==> SkelItems(items, parent, at) != []
  {
    hide Skel;
  }

  lemma SkelMembersFirst(ms: T.Members, parent: int, at: nat)
    requires T.GoodMembers(ms)
    ensures SkelMembers(ms, parent, at) != [] ==> SkelMembers(ms, parent, at)[0].parent == parent
    ensures ms.Member? <==> SkelMembers(ms, parent, at) != []
  {
    hide Skel;
  }

  lemma {:induction false} WalkMembers(final: seq<Node>, ms: T.Members, at: nat, open: seq<Place>, n: Node)
    requires T.GoodMembers(ms) && open != [] && Placed(final, at, open) && Lies(final, at, SkelMembers(ms, Parent(open), at))
    requires Outer(final, at + WidthMembers(ms), Parent(open) + 1)
    requires forall bytes :: Within(n, bytes) <==> Within(final[Parent(open)], bytes)
    ensures at + WidthMembers(ms) <= |final|
    ensures FateFrom(final, at, open)
         == Then(MembersFate(n, open[|open| - 1].done, ms), FateFrom(final, at + WidthMembers(ms), More(open, CountMembers(ms))))
    decreases ms, 1
  {
    hide FateFrom, Within, Refused, Misplaced, Skel, ValueFate, Lies, T.Bytes, NameBytes;
    SkelMembersWidth(ms, Parent(open), at);
    if ms.NoMembers? {
      assert More(open, 0) == open;
    } else {
      var p, w, k := Parent(open), at + Width(ms.value), open[|open| - 1].done;
      SkelWidth(ms.value, p, at);
      SkelMembersFirst(ms.rest, p, w);
      LiesParts(final, at, Skel(ms.value, p, at), SkelMembers(ms.rest, p, w));
      if Within(n, 24 * k + 12) {
        WalkValue(final, ms.value, at, open);
        var open' := More(open, 1);
        WalkMembers(final, ms.rest, w, open', n);
        assert More(open', CountMembers(ms.rest)) == More(open, CountMembers(ms));
      } else {
        NameOverruns(final, at, open);
      }
    }
  }

  lemma NameOverruns(final: seq<Node>, at: nat, open: seq<Place>)
    requires Placed(final, at, open) && open != [] && at < |final| && final[at].parent == Parent(open)
    requires !Within(final[Parent(open)], 24 * open[|open| - 1].done + 12)
    ensures FateFrom(final, at, open) == Overruns
  {
  }

  /** The nodes of a text tell what the text does. */
  lemma ValueFateShown(v: T.Value)
    requires T.Good(v)
    ensures FateFrom(Skel(v, NONE, 0), 0, []) == ValueFate(v)
  {
    hide Skel, ValueFate;
    var final := Skel(v, NONE, 0);
    SkelWidth(v, NONE, 0);
    assert final[0..0 + |final|] == final;
    WalkValue(final, v, 0, []);
    assert FateFrom(final, |final|, []) == Completes;
  }
}
