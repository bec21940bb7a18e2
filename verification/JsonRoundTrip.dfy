/** Both passes of src/json.c on a JSON text leave nodes that denote what the text means. */
module JsonRoundTrip {
  import opened JsonParser
  import opened JsonReading
  import opened JsonFirstReading
  import opened JsonSecondReading
  import opened JsonSizes
  import opened JsonFate
  import JsonSecondPass
  import JsonSafety
  import JsonTree
  import T = JsonText

  /** What a caller finds who follows the entries from node `i`. */
  ghost predicate Denotes(nodes: seq<Node>, i: int, j: T.Json)
    decreases j
  {
    && 0 <= i < |nodes|
    && var n := nodes[i];
       match j
       case JNull => n.kind.KNull?
       case JBool(b) => n.kind.KBoolean? && n.boolean == b
       case JInt(x) => n.kind.KInteger? && n.integer == x
       case JReal => n.kind.KDouble?
       case JString(s) => n.kind.KString? && n.length == |s| && n.mem == s + "\0"
       case JArray(items) =>
         && n.kind.KArray? && n.length == |n.slots| == |items|
         && forall k :: 0 <= k < |items| ==> Denotes(nodes, n.slots[k].value, items[k])
       case JObject(ms) =>
         && n.kind.KObject? && n.length == |n.slots| == |ms|
         && forall k :: 0 <= k < |ms| ==>
              NamedBy(n, n.slots[k], ms[k].0) && Denotes(nodes, n.slots[k].value, ms[k].1)
  }

  ghost predicate NamedBy(n: Node, slot: Slot, name: string) {
    && slot.nameLen == |name| && slot.nameAt + |name| + 1 <= |n.mem|
    && n.mem[slot.nameAt..slot.nameAt + |name| + 1] == name + "\0"
  }

  /** Nodes denote one thing at most. */
  lemma {:induction false} DenotesOne(nodes: seq<Node>, i: int, a: T.Json, b: T.Json)
    requires Denotes(nodes, i, a) && Denotes(nodes, i, b)
    ensures a == b
    decreases a
  {
    var n := nodes[i];
    match a
    case JString(s) =>
      assert s == n.mem[..n.length] && b.s == n.mem[..n.length];
    case JArray(items) =>
      forall k | 0 <= k < |items|
        ensures items[k] == b.items[k]
      {
        DenotesOne(nodes, n.slots[k].value, items[k], b.items[k]);
      }
    case JObject(ms) =>
      forall k | 0 <= k < |ms|
        ensures ms[k] == b.members[k]
      {
        DenotesOne(nodes, n.slots[k].value, ms[k].1, b.members[k].1);
        SameName(n, n.slots[k], ms[k].0, b.members[k].0);
      }
    case _ =>
  }

  lemma SameName(n: Node, slot: Slot, a: string, b: string)
    requires NamedBy(n, slot, a) && NamedBy(n, slot, b)
    ensures a == b
  {
    assert a == (a + "\0")[..|a|] && b == (b + "\0")[..|b|];
  }

  lemma {:induction false} StoredDenotes(nodes: seq<Node>, at: int, v: T.Value)
    requires T.Good(v) && Stored(nodes, at, v)
    ensures Denotes(nodes, at, T.Meaning(false, v))
    decreases v
  {
    hide StoredItems, StoredMembers, T.ItemsMeaning, T.MembersMeaning, T.Bytes, T.IntValue, Wrap64, NamedBy;
    match v
    case Array(_, items) => StoredItemsDenote(nodes, at, 0, at + 1, items);
    case Object(_, ms) => StoredMembersDenote(nodes, at, 0, 0, at + 1, ms);
    case _ =>
  }

  lemma {:induction false} StoredItemsDenote(nodes: seq<Node>, p: int, j: nat, at: int, items: T.Items)
    requires T.GoodItems(items) && StoredItems(nodes, p, j, at, items) && 0 <= p < |nodes| && j + Count(items) == |nodes[p].slots|
    ensures var m := T.ItemsMeaning(false, items);
            |m| == Count(items) && forall k :: j <= k < |nodes[p].slots| ==> Denotes(nodes, nodes[p].slots[k].value, m[k - j])
    decreases items
  {
    hide Stored, T.Meaning, Denotes;
    if items.Item? {
      StoredDenotes(nodes, at, items.value);
      StoredItemsDenote(nodes, p, j + 1, at + Width(items.value), items.rest);
    }
  }

  lemma {:induction false} StoredMembersDenote(nodes: seq<Node>, p: int, j: nat, nameAt: nat, at: int, ms: T.Members)
    requires T.GoodMembers(ms) && StoredMembers(nodes, p, j, nameAt, at, ms) && 0 <= p < |nodes|
    requires j + CountMembers(ms) == |nodes[p].slots|
    ensures var m := T.MembersMeaning(false, ms);
            && |m| == CountMembers(ms)
            && forall k :: j <= k < |nodes[p].slots| ==>
                 NamedBy(nodes[p], nodes[p].slots[k], m[k - j].0) && Denotes(nodes, nodes[p].slots[k].value, m[k - j].1)
    decreases ms
  {
    hide Stored, T.Meaning, T.Bytes, Denotes;
    if ms.Member? {
      StoredDenotes(nodes, at, ms.value);
      StoredMembersDenote(nodes, p, j + 1, nameAt + |T.Bytes(false, ms.key)| + 1, at + Width(ms.value), ms.rest);
    }
  }

  // ----- the whole text -----

  /** A JSON text: a value, with white space around it. */
  predicate IsText(text: string, pre: string, v: T.Value, post: string) {
    T.Good(v) && T.IsGap(pre) && T.IsGap(post) && text == pre + (T.ValueText(v) + post)
  }

  lemma TextHere(text: string, pre: string, v: T.Value, post: string)
    requires IsText(text, pre, v, post)
    ensures var i := |pre|;
            && Here(text, 0, pre) && Here(text, i, T.ValueText(v)) && Here(text, i + |T.ValueText(v)|, post)
            && i + |T.ValueText(v)| + |post| == |text| && Ends(At(text, i + |T.ValueText(v)|))
  {
    hide T.ValueText;
    var w := T.ValueText(v);
    assert text[0..0 + |text|] == text;
    HereSplit(text, 0, pre, w + post);
    HereSplit(text, |pre|, w, post);
    if post != "" { HereAt(text, |pre| + |w|, post, 0); }
  }

  /** The end of the text, after the root. */
  lemma AcceptEnd(first: bool, cfg: Config, text: string, s: State, post: string)
    requires s.ptr <= |text| && Here(text, s.ptr, post) && s.ptr + |post| == |text| && T.IsGap(post)
    requires s.flags == Flags(true, false, false, false, false, true, false, false)
    ensures Run(first, cfg, text, s) == Accept(s.nodes)
  {
    ReadGap(first, cfg, text, s, post);
    var t := s.(ptr := |text|);
    assert Step(first, cfg, text, t) == Accept(s.nodes);
  }

  lemma FirstPass(cfg: Config, text: string, pre: string, v: T.Value, post: string)
    requires IsText(text, pre, v, post) && |text| <= UINT_MAX
    ensures Run(true, cfg, text, Start([])) == if T.Tame(v) then Accept(Skel(v, NONE, 0)) else Hang
  {
    hide Run, T.ValueText, Skel, Step, T.Tame;
    TextHere(text, pre, v, post);
    var s := Start([]);
    ReadGap(true, cfg, text, s, pre);
    var t := ReadValue1(cfg, text, s.(ptr := |pre|), v);
    assert t.nodes == [] + Skel(v, NONE, 0);
    AcceptEnd(true, cfg, text, t, post);
  }

  lemma SecondPass(cfg: Config, text: string, pre: string, v: T.Value, post: string)
    requires IsText(text, pre, v, post) && |text| <= UINT_MAX && Modest(Skel(v, NONE, 0))
    ensures var r := Run(false, cfg, text, Start(Skel(v, NONE, 0)));
            r.Accept? && Stored(r.nodes, 0, v)
  {
    hide Run, T.ValueText, Skel, Step, Stored, Modest;
    TextHere(text, pre, v, post);
    var s := Start(Skel(v, NONE, 0));
    ReadGap(false, cfg, text, s, pre);
    var t := ReadValue2(cfg, text, s.(ptr := |pre|), v);
    AcceptEnd(false, cfg, text, t, post);
  }

  /** What the parse of the text of `v` comes to. */
  ghost predicate Read(r: Outcome, v: T.Value)
    requires T.Good(v)
  {
    if !T.Tame(v) then r.Hang?
    else
      match ValueFate(v)
      case Completes =>
        && r.Accept? && Denotes(r.nodes, 0, T.Meaning(false, v))
        && (Denotes(r.nodes, 0, T.Meaning(true, v)) <==> T.Clean(v))
      case Starves => r == if RootStarves(v) then Fault else Reject
      case Overruns => r == Fault
  }

  /** The text is an object that is refused its block. */
  predicate RootStarves(v: T.Value)
    requires T.Good(v)
  {
    v.Object? && Refused(Header(v.members, NONE))
  }

  /**
   Every JSON text is read as what it means, exactly if its integers fit and its surrogate pairs are
   clean. Two things are in the way: a number from which the parser does not come back, and an object
   with more than 89478485 members, in a block of the wrong size.
   */
  lemma ParseMeaning(cfg: Config, json: string, pre: string, v: T.Value, post: string)
    requires IsText(SkipMark(json), pre, v, post) && |json| <= UINT_MAX
    ensures T.Good(v) && Read(Parse(cfg, json), v)
  {
    hide Run, Skel, Stored, Denotes, T.Meaning, T.Clean, T.Tame, IsText, ValueFate, Modest, RootStarves;
    var text := SkipMark(json);
    FirstPass(cfg, text, pre, v, post);
    IsGood(text, pre, v, post);
    if T.Tame(v) {
      ValueFateShown(v);
      FateEnds(cfg, json, v);
      if ValueFate(v).Completes? {
        SecondPass(cfg, text, pre, v, post);
        var nodes := Parse(cfg, json).nodes;
        StoredDenotes(nodes, 0, v);
        T.MeaningExact(v);
        if Denotes(nodes, 0, T.Meaning(true, v)) {
          DenotesOne(nodes, 0, T.Meaning(true, v), T.Meaning(false, v));
        }
      }
    }
  }

  /** The second pass ends as the nodes of the text tell; if it completes, no object is oversized. */
  lemma FateEnds(cfg: Config, json: string, v: T.Value)
    requires T.Good(v) && |json| <= UINT_MAX && FateFrom(Skel(v, NONE, 0), 0, []) == ValueFate(v)
    requires Run(true, cfg, SkipMark(json), Start([])) == Accept(Skel(v, NONE, 0))
    ensures ValueFate(v).Completes? ==> Modest(Skel(v, NONE, 0))
    ensures ValueFate(v).Starves? ==> Parse(cfg, json) == if RootStarves(v) then Fault else Reject
    ensures ValueFate(v).Overruns? ==> Parse(cfg, json) == Fault
  {
    hide Run, Skel, ValueFate, FateFrom, Oversized, Refused, RootStarves, JsonTree.Shaped, JsonSecondPass.Holds;
    var text := SkipMark(json);
    JsonTree.SecondPassFollows(cfg, text);
    RootShown(v);
    if ValueFate(v).Completes? {
      JsonSafety.AcceptedSized(cfg, json);
    }
  }

  lemma RootShown(v: T.Value)
    requires T.Good(v)
    ensures RootStarves(v) <==> Refused(Skel(v, NONE, 0)[0])
  {
    hide SkelMembers, SkelItems, NameBytes, CountMembers, Wrapped, BlockSize, T.Bytes;
  }

  lemma IsGood(text: string, pre: string, v: T.Value, post: string)
    requires IsText(text, pre, v, post)
    ensures T.Good(v)
  {
  }
}
